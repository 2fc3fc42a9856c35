/**
 * The Markdown assembler (`convert_elements_to_markdown`).  It walks the text
 * fragments in order, groups consecutive non-heading tokens of one page and
 * one visual line band into paragraphs, emits headings as lines of their own,
 * and inserts the images of a page when the walk leaves that page.
 *
 * The specification state is a sequence of typed nodes; the method builds the
 * plain list of lines and is proved to produce the rendering of those nodes.
 */
module Assembler {
  import opened Wrappers
  import opened Seqs
  import opened Text
  import opened Fragments
  import opened Classifier
  import opened Images
  import opened PostProcess

  /** `f"![图片 {index}]({filename})"`. */
  function ImageLink(img: ImageRecord): string
  {
    "![图片 " + NatToString(img.index) + "](" + img.filename + ")"
  }

  /** `f"*第{page}页 - 图片{index} ({width}x{height})*"`. */
  function ImageCaption(img: ImageRecord): string
  {
    "*第" + NatToString(img.page) + "页 - 图片" + NatToString(img.index) +
      " (" + NatToString(img.width) + "x" + NatToString(img.height) + ")*"
  }

  /** One unit of the assembled document. */
  datatype Node =
    | Paragraph(tokens: seq<string>)   // the tokens of one run, joined by blanks
    | HeadingLine(token: string)        // a token starting with '#'
    | Spacer                           // the empty line around an image block
    | Picture(img: ImageRecord)        // an image link and its caption

  /** The Markdown lines of one node. */
  function NodeLines(n: Node): seq<string>
  {
    match n
    case Paragraph(ts) => [ParagraphText(ts)]
    case HeadingLine(t) => [t]
    case Spacer => [""]
    case Picture(img) => [ImageLink(img), ImageCaption(img)]
  }

  /** `" ".join(current_paragraph).strip()`. */
  function ParagraphText(ts: seq<string>): string
  {
    Strip(Join(ts, " "))
  }

  /** The lines of each node. */
  function Rendered(nodes: seq<Node>): (r: seq<seq<string>>)
    ensures |r| == |nodes| && forall i :: 0 <= i < |nodes| ==> r[i] == NodeLines(nodes[i])
  {
    seq(|nodes|, i requires 0 <= i < |nodes| => NodeLines(nodes[i]))
  }

  /** The concatenation of a list of line blocks. */
  function Concat(blocks: seq<seq<string>>): seq<string>
  {
    if blocks == [] then [] else Concat(blocks[..|blocks| - 1]) + blocks[|blocks| - 1]
  }

  /** The `markdown_lines` a node sequence stands for. */
  function Lines(nodes: seq<Node>): seq<string>
  {
    Concat(Rendered(nodes))
  }

  /** `images_by_page[p]`: the images of page `p`, in extraction order. */
  function OnPage(images: seq<ImageRecord>, p: int): seq<ImageRecord>
  {
    if images == [] then []
    else
      var k := |images| - 1;
      OnPage(images[..k], p) + (if images[k].page == p then [images[k]] else [])
  }

  function Pictures(imgs: seq<ImageRecord>): seq<Node>
  {
    if imgs == [] then [] else Pictures(imgs[..|imgs| - 1]) + [Picture(imgs[|imgs| - 1])]
  }

  /** Finishing the current paragraph: it becomes a node unless its text is blank. */
  function Flush(nodes: seq<Node>, para: seq<string>): seq<Node>
  {
    if para != [] && ParagraphText(para) != [] then nodes + [Paragraph(para)] else nodes
  }

  /** The image block written when the walk leaves page `p`. */
  function LeavePage(images: seq<ImageRecord>, p: int): seq<Node>
  {
    if OnPage(images, p) == [] then [] else [Spacer] + Pictures(OnPage(images, p)) + [Spacer]
  }

  /** The image block of the last page: no empty line after it. */
  function EndPage(images: seq<ImageRecord>, p: int): seq<Node>
  {
    if OnPage(images, p) == [] then [] else [Spacer] + Pictures(OnPage(images, p))
  }

  /** The loop state: emitted nodes, `current_paragraph`, `last_y` and `current_page`. */
  datatype Asm = Asm(nodes: seq<Node>, para: seq<string>, lastY: Option<real>, page: int)

  /** The font statistics of the job: title and subtitle thresholds and the average size. */
  datatype Stats = Stats(title: real, subtitle: real, avg: real)

  function StatsOf(frs: seq<Fragment>): Stats
    requires frs != []
  {
    var avg := Average(Sizes(frs));
    Stats(TitleThreshold(avg), SubtitleThreshold(avg), avg)
  }

  /** The token of a fragment: its stripped text through `format_text_element`. */
  function Token(e: Fragment, st: Stats): string
  {
    FormatTextElement(Strip(e.text), e.size, e.flags, st.title, st.subtitle, st.avg)
  }

  function TokenFn(st: Stats): Fragment -> string
  {
    e => Token(e, st)
  }

  /** The token of every fragment, in input order (blank fragments' tokens are never used). */
  function Formatted(frs: seq<Fragment>, st: Stats): (toks: seq<string>)
    ensures |toks| == |frs|
  {
    Map(frs, TokenFn(st))
  }

  lemma FormattedIndex(frs: seq<Fragment>, st: Stats, i: nat)
    requires i < |frs|
    ensures Formatted(frs, st)[i] == Token(frs[i], st)
  {
    MapIndex(frs, TokenFn(st), i);
  }

  /** Moving to page `p`: finish the paragraph, write the left page's images, forget `last_y`. */
  function EnterPage(s: Asm, p: int, images: seq<ImageRecord>): Asm
  {
    if p != s.page then Asm(Flush(s.nodes, s.para) + LeavePage(images, s.page), [], None, p) else s
  }

  /** The vertical gap exceeds 80% of the new fragment's font size. */
  predicate IsLineBreak(lastY: Option<real>, y: real, size: real)
  {
    lastY.Some? && Abs(y - lastY.value) > size * 0.8
  }

  function BreakLine(s: Asm, y: real, size: real): Asm
  {
    if IsLineBreak(s.lastY, y, size) && s.para != [] then s.(nodes := Flush(s.nodes, s.para), para := []) else s
  }

  /** A heading token finishes the paragraph and stands alone; any other joins the paragraph. */
  function AddToken(s: Asm, tok: string, y: real): Asm
  {
    if IsHeadingToken(tok) then Asm(Flush(s.nodes, s.para) + [HeadingLine(tok)], [], Some(y), s.page)
    else s.(para := s.para + [tok], lastY := Some(y))
  }

  /** One iteration of the fragment loop with the fragment's token `tok`; a fragment with blank text is skipped. */
  function Step(s: Asm, e: Fragment, images: seq<ImageRecord>, tok: string): Asm
  {
    if !NonBlank(e.text) then s
    else AddToken(BreakLine(EnterPage(s, e.page, images), e.y0, e.size), tok, e.y0)
  }

  /** The loop state after the given fragments with their tokens `toks`; the walk starts on page 1. */
  function Run(frs: seq<Fragment>, images: seq<ImageRecord>, toks: seq<string>): Asm
    requires |toks| == |frs|
  {
    if frs == [] then Asm([], [], None, 1)
    else
      var n := |frs| - 1;
      Step(Run(frs[..n], images, toks[..n]), frs[n], images, toks[n])
  }

  /** The nodes after the loop: the last paragraph, then the images of the last page. */
  function FinalNodes(frs: seq<Fragment>, images: seq<ImageRecord>, toks: seq<string>): seq<Node>
    requires |toks| == |frs|
  {
    var s := Run(frs, images, toks);
    Flush(s.nodes, s.para) + EndPage(images, s.page)
  }

  /** The lines of the image-only branch: link and caption of every image, in order. */
  function ImagesOnlyLines(images: seq<ImageRecord>): (r: seq<string>)
    ensures |r| == 2 * |images|
    ensures forall k :: 0 <= k < |images| ==> r[2 * k] == ImageLink(images[k]) && r[2 * k + 1] == ImageCaption(images[k])
  {
    if images == [] then []
    else
      var k := |images| - 1;
      var pre := ImagesOnlyLines(images[..k]);
      assert forall j :: 0 <= j < k ==> images[..k][j] == images[j];
      pre + [ImageLink(images[k]), ImageCaption(images[k])]
  }

  /** What `convert_elements_to_markdown(text_elements, extracted_images)` returns. */
  function MarkdownOf(frs: seq<Fragment>, images: seq<ImageRecord>): string
  {
    if frs == [] && images == [] then ""
    else if frs == [] then Join(ImagesOnlyLines(images), "\n\n")
    else Join(PostProcessed(Lines(FinalNodes(frs, images, Formatted(frs, StatsOf(frs))))), "\n\n")
  }

  // ----- the method -----

  /** The building loop's variables agree with a specification state. */
  predicate Mirrors(lines: seq<string>, para: seq<string>, lastY: Option<real>, page: int, s: Asm)
  {
    lines == Lines(s.nodes) && para == s.para && lastY == s.lastY && page == s.page
  }

  /** The `images_by_page` dictionary. */
  method GroupImagesByPage(images: seq<ImageRecord>) returns (byPage: map<int, seq<ImageRecord>>)
    ensures GroupsImages(byPage, images)
  {
    byPage := map[];
    var i := 0;
    while i < |images|
      invariant 0 <= i <= |images|
      invariant forall p :: p in byPage <==> OnPage(images[..i], p) != []
      invariant forall p :: p in byPage ==> byPage[p] == OnPage(images[..i], p)
    {
      var img := images[i];
      assert images[..i + 1][..i] == images[..i];
      var page := img.page as int;
      if page !in byPage {
        byPage := byPage[page := []];
      }
      byPage := byPage[page := byPage[page] + [img]];
      i := i + 1;
    }
    assert images[..i] == images;
  }

  /** Appends the link and caption lines of each image. */
  method AppendPictureLines(lines: seq<string>, imgs: seq<ImageRecord>) returns (out: seq<string>)
    ensures out == lines + Lines(Pictures(imgs))
  {
    out := lines;
    var k := 0;
    while k < |imgs|
      invariant 0 <= k <= |imgs|
      invariant out == lines + Lines(Pictures(imgs[..k]))
    {
      var img := imgs[k];
      assert imgs[..k + 1][..k] == imgs[..k];
      LinesSnoc(Pictures(imgs[..k]), Picture(img));
      out := out + [ImageLink(img), ImageCaption(img)];
      k := k + 1;
    }
    assert imgs[..k] == imgs;
  }

  /** Appends the paragraph text unless it is blank. */
  method FlushLines(lines: seq<string>, para: seq<string>, ghost nodes: seq<Node>) returns (out: seq<string>)
    requires lines == Lines(nodes)
    ensures out == Lines(Flush(nodes, para))
  {
    out := lines;
    if para != [] {
      var paragraphText := Strip(Join(para, " "));
      if paragraphText != [] {
        LinesSnoc(nodes, Paragraph(para));
        out := out + [paragraphText];
      }
    }
  }

  /** `byPage` is the `images_by_page` dictionary of `images`. */
  ghost predicate GroupsImages(byPage: map<int, seq<ImageRecord>>, images: seq<ImageRecord>)
  {
    (forall p :: p in byPage <==> OnPage(images, p) != []) &&
    (forall p :: p in byPage ==> byPage[p] == OnPage(images, p))
  }

  /** The page-change part of the loop body (no effect when the page stays the same). */
  method EnterPageLines(lines: seq<string>, para: seq<string>, lastY: Option<real>, page: int, p: int,
                        byPage: map<int, seq<ImageRecord>>, images: seq<ImageRecord>, ghost s: Asm)
    returns (lines': seq<string>, para': seq<string>, lastY': Option<real>, page': int)
    requires Mirrors(lines, para, lastY, page, s) && GroupsImages(byPage, images)
    ensures Mirrors(lines', para', lastY', page', EnterPage(s, p, images))
  {
    lines', para', lastY', page' := lines, para, lastY, page;
    if p != page {
      lines' := FlushLines(lines', para', s.nodes);
      para' := [];
      LinesLeavePage(Flush(s.nodes, s.para), images, page);
      if page in byPage {
        lines' := lines' + [""];
        lines' := AppendPictureLines(lines', byPage[page]);
        lines' := lines' + [""];
      }
      page' := p;
      lastY' := None;
    }
  }

  /** The line-break test and the paragraph it closes. */
  method BreakLineLines(lines: seq<string>, para: seq<string>, lastY: Option<real>, page: int, y: real, size: real, ghost s: Asm)
    returns (lines': seq<string>, para': seq<string>)
    requires Mirrors(lines, para, lastY, page, s)
    ensures Mirrors(lines', para', lastY, page, BreakLine(s, y, size))
  {
    lines', para' := lines, para;
    var lineBreak := false;
    if lastY.Some? {
      var yDiff := Abs(y - lastY.value);
      if yDiff > size * 0.8 {
        lineBreak := true;
      }
    }
    if lineBreak && para != [] {
      lines' := FlushLines(lines, para, s.nodes);
      para' := [];
    }
  }

  /** A heading token becomes its own line; any other token joins the paragraph. */
  method AddTokenLines(lines: seq<string>, para: seq<string>, lastY: Option<real>, page: int, formatted: string, y: real, ghost s: Asm)
    returns (lines': seq<string>, para': seq<string>, lastY': Option<real>)
    requires Mirrors(lines, para, lastY, page, s)
    ensures Mirrors(lines', para', lastY', page, AddToken(s, formatted, y))
  {
    lines', para' := lines, para;
    if formatted != [] && formatted[0] == '#' {
      lines' := FlushLines(lines, para, s.nodes);
      para' := [];
      LinesSnoc(Flush(s.nodes, s.para), HeadingLine(formatted));
      lines' := lines' + [formatted];
    } else {
      para' := para + [formatted];
    }
    lastY' := Some(y);
  }

  /** The image-only branch. */
  method ImagesOnlyMarkdown(images: seq<ImageRecord>) returns (md: string)
    ensures md == Join(ImagesOnlyLines(images), "\n\n")
  {
    var markdownLines: seq<string> := [];
    var k := 0;
    while k < |images|
      invariant 0 <= k <= |images|
      invariant markdownLines == ImagesOnlyLines(images[..k])
    {
      var img := images[k];
      assert images[..k + 1][..k] == images[..k];
      markdownLines := markdownLines + [ImageLink(img), ImageCaption(img)];
      k := k + 1;
    }
    assert images[..k] == images;
    md := Join(markdownLines, "\n\n");
  }

  /** The walk over the fragments: the loop of `convert_elements_to_markdown`. */
  method WalkFragments(frs: seq<Fragment>, images: seq<ImageRecord>, byPage: map<int, seq<ImageRecord>>, st: Stats,
                       ghost toks: seq<string>)
    returns (lines: seq<string>, para: seq<string>, lastY: Option<real>, page: int)
    requires GroupsImages(byPage, images) && toks == Formatted(frs, st)
    ensures Mirrors(lines, para, lastY, page, Run(frs, images, toks))
  {
    lines, para, lastY, page := [], [], None, 1;
    var i := 0;
    while i < |frs|
      invariant 0 <= i <= |frs|
      invariant Mirrors(lines, para, lastY, page, Run(frs[..i], images, toks[..i]))
    {
      var e := frs[i];
      ghost var s0 := Run(frs[..i], images, toks[..i]);
      RunPrefix(frs, images, toks, i);
      var text := Strip(e.text);
      if text != [] {
        ghost var s1 := EnterPage(s0, e.page, images);
        lines, para, lastY, page := EnterPageLines(lines, para, lastY, page, e.page, byPage, images, s0);
        ghost var s2 := BreakLine(s1, e.y0, e.size);
        lines, para := BreakLineLines(lines, para, lastY, page, e.y0, e.size, s1);
        var formatted := FormatToken(frs, i, text, st, toks);
        lines, para, lastY := AddTokenLines(lines, para, lastY, page, formatted, e.y0, s2);
      }
      i := i + 1;
    }
    TakeAll(frs);
    TakeAll(toks);
  }

  /** `format_text_element(text, font_size, font_flags, ...)` for fragment `i`, whose stripped text is `text`. */
  method FormatToken(frs: seq<Fragment>, i: nat, text: string, st: Stats, ghost toks: seq<string>) returns (formatted: string)
    requires i < |frs| && text == Strip(frs[i].text) && toks == Formatted(frs, st)
    ensures formatted == toks[i]
  {
    FormattedIndex(frs, st, i);
    var e := frs[i];
    formatted := FormatTextElement(text, e.size, e.flags, st.title, st.subtitle, st.avg);
  }

  /** One more fragment of the walk is one more step. */
  lemma RunPrefix(frs: seq<Fragment>, images: seq<ImageRecord>, toks: seq<string>, i: nat)
    requires |toks| == |frs| && i < |frs|
    ensures Run(frs[..i + 1], images, toks[..i + 1]) == Step(Run(frs[..i], images, toks[..i]), frs[i], images, toks[i])
  {
    assert frs[..i + 1][..i] == frs[..i];
    assert toks[..i + 1][..i] == toks[..i];
  }

  /** `convert_elements_to_markdown(text_elements, extracted_images)`. */
  method ConvertElementsToMarkdown(frs: seq<Fragment>, images: seq<ImageRecord>) returns (md: string)
    ensures md == MarkdownOf(frs, images)
  {
    if frs == [] && images == [] {
      return "";
    }
    if frs == [] {
      md := ImagesOnlyMarkdown(images);
      return;
    }
    var st := StatsOf(frs);
    var byPage := GroupImagesByPage(images);
    ghost var toks := Formatted(frs, st);
    var lines, para, lastY, page := WalkFragments(frs, images, byPage, st, toks);
    ghost var s := Run(frs, images, toks);
    lines := FlushLines(lines, para, s.nodes);
    LinesEndPage(Flush(s.nodes, s.para), images, page);
    if page in byPage {
      lines := lines + [""];
      lines := AppendPictureLines(lines, byPage[page]);
    }
    var processedLines := PostProcessMarkdown(lines);
    md := Join(processedLines, "\n\n");
  }

  // ----- rendering lemmas -----

  lemma ConcatSnoc(a: seq<seq<string>>, x: seq<string>)
    ensures Concat(a + [x]) == Concat(a) + x
  {
    SnocParts(a, x);
  }

  lemma {:induction false} ConcatAppend(a: seq<seq<string>>, b: seq<seq<string>>)
    ensures Concat(a + b) == Concat(a) + Concat(b)
    decreases |b|
  {
    if b == [] {
      AppendEmpty(a);
      AppendEmpty(Concat(a));
    } else {
      var front, last := b[..|b| - 1], b[|b| - 1];
      ConcatAppend(a, front);
      Assoc(a, front, [last]);
      ConcatSnoc(a + front, last);
      ConcatSnoc(front, last);
      Assoc(Concat(a), Concat(front), last);
      SplitLast(b);
    }
  }

  lemma LinesAppend(a: seq<Node>, b: seq<Node>)
    ensures Lines(a + b) == Lines(a) + Lines(b)
  {
    assert Rendered(a + b) == Rendered(a) + Rendered(b);
    ConcatAppend(Rendered(a), Rendered(b));
  }

  lemma LinesSnoc(nodes: seq<Node>, n: Node)
    ensures Lines(nodes + [n]) == Lines(nodes) + NodeLines(n)
  {
    LinesAppend(nodes, [n]);
    assert Rendered([n]) == [NodeLines(n)];
    assert Concat([NodeLines(n)]) == NodeLines(n) by {
      assert [NodeLines(n)][..0] == [];
    }
  }

  lemma LinesLeavePage(nodes: seq<Node>, images: seq<ImageRecord>, p: int)
    ensures Lines(nodes + LeavePage(images, p)) ==
      if OnPage(images, p) == [] then Lines(nodes) else Lines(nodes) + [""] + Lines(Pictures(OnPage(images, p))) + [""]
  {
    var pics := Pictures(OnPage(images, p));
    if OnPage(images, p) == [] {
      assert nodes + LeavePage(images, p) == nodes;
    } else {
      assert nodes + LeavePage(images, p) == ((nodes + [Spacer]) + pics) + [Spacer];
      LinesSnoc(nodes + [Spacer] + pics, Spacer);
      LinesAppend(nodes + [Spacer], pics);
      LinesSnoc(nodes, Spacer);
    }
  }

  lemma LinesEndPage(nodes: seq<Node>, images: seq<ImageRecord>, p: int)
    ensures Lines(nodes + EndPage(images, p)) ==
      if OnPage(images, p) == [] then Lines(nodes) else Lines(nodes) + [""] + Lines(Pictures(OnPage(images, p)))
  {
    var pics := Pictures(OnPage(images, p));
    if OnPage(images, p) == [] {
      assert nodes + EndPage(images, p) == nodes;
    } else {
      assert nodes + EndPage(images, p) == (nodes + [Spacer]) + pics;
      LinesAppend(nodes + [Spacer], pics);
      LinesSnoc(nodes, Spacer);
    }
  }

  lemma ConcatSingle(x: seq<string>)
    ensures Concat([x]) == x
  {
    assert [x][..0] == [];
  }

  // ----- structure of the assembled nodes -----

  /** Paragraph tokens are non-blank and never start with '#'. */
  predicate ParagraphTokens(ts: seq<string>)
  {
    forall k :: 0 <= k < |ts| ==> NonBlank(ts[k]) && !IsHeadingToken(ts[k])
  }

  predicate SoundNode(n: Node)
  {
    match n
    case Paragraph(ts) => ts != [] && ParagraphTokens(ts)
    case HeadingLine(t) => IsHeadingToken(t)
    case _ => true
  }

  predicate SoundNodes(nodes: seq<Node>)
  {
    forall i :: 0 <= i < |nodes| ==> SoundNode(nodes[i])
  }

  /** A paragraph of non-blank tokens always has non-blank text, so it is never dropped. */
  lemma ParagraphTextNonEmpty(ts: seq<string>)
    requires ts != [] && ParagraphTokens(ts)
    ensures ParagraphText(ts) != []
  {
    JoinNonBlank(ts, " ");
  }

  lemma PicturesSound(imgs: seq<ImageRecord>)
    ensures SoundNodes(Pictures(imgs))
  {
    if imgs != [] {
      PicturesSound(imgs[..|imgs| - 1]);
    }
  }

  predicate SoundState(s: Asm)
  {
    SoundNodes(s.nodes) && ParagraphTokens(s.para)
  }

  lemma FlushSound(nodes: seq<Node>, para: seq<string>)
    requires SoundNodes(nodes) && ParagraphTokens(para)
    ensures SoundNodes(Flush(nodes, para))
  {
  }

  lemma ImageBlockSound(nodes: seq<Node>, images: seq<ImageRecord>, p: int)
    requires SoundNodes(nodes)
    ensures SoundNodes(nodes + LeavePage(images, p)) && SoundNodes(nodes + EndPage(images, p))
  {
    PicturesSound(OnPage(images, p));
  }

  lemma EnterPageSound(s: Asm, p: int, images: seq<ImageRecord>)
    requires SoundState(s)
    ensures SoundState(EnterPage(s, p, images))
  {
    if p != s.page {
      FlushSound(s.nodes, s.para);
      ImageBlockSound(Flush(s.nodes, s.para), images, s.page);
    }
  }

  lemma BreakLineSound(s: Asm, y: real, size: real)
    requires SoundState(s)
    ensures SoundState(BreakLine(s, y, size))
  {
  }

  lemma AddTokenSound(s: Asm, tok: string, y: real)
    requires SoundState(s) && NonBlank(tok)
    ensures SoundState(AddToken(s, tok, y))
  {
    FlushSound(s.nodes, s.para);
  }

  lemma TokenNonBlank(e: Fragment, st: Stats)
    requires NonBlank(e.text)
    ensures NonBlank(Token(e, st))
  {
    FormatNonBlank(Strip(e.text), e.size, e.flags, st.title, st.subtitle, st.avg);
  }

  lemma StepSound(s: Asm, e: Fragment, images: seq<ImageRecord>, tok: string)
    requires SoundState(s) && (NonBlank(e.text) ==> NonBlank(tok))
    ensures SoundState(Step(s, e, images, tok))
  {
    if NonBlank(e.text) {
      var s1 := EnterPage(s, e.page, images);
      EnterPageSound(s, e.page, images);
      var s2 := BreakLine(s1, e.y0, e.size);
      BreakLineSound(s1, e.y0, e.size);
      AddTokenSound(s2, tok, e.y0);
    }
  }

  /** Every non-blank fragment has a non-blank token. */
  predicate TokensNonBlank(frs: seq<Fragment>, toks: seq<string>)
    requires |toks| == |frs|
  {
    forall i :: 0 <= i < |frs| && NonBlank(frs[i].text) ==> NonBlank(toks[i])
  }

  lemma FormattedNonBlank(frs: seq<Fragment>, st: Stats)
    ensures TokensNonBlank(frs, Formatted(frs, st))
  {
    forall i | 0 <= i < |frs| && NonBlank(frs[i].text)
      ensures NonBlank(Formatted(frs, st)[i])
    {
      FormattedIndex(frs, st, i);
      TokenNonBlank(frs[i], st);
    }
  }

  lemma {:induction false} RunSound(frs: seq<Fragment>, images: seq<ImageRecord>, toks: seq<string>)
    requires |toks| == |frs| && TokensNonBlank(frs, toks)
    ensures SoundState(Run(frs, images, toks))
  {
    if frs != [] {
      var n := |frs| - 1;
      assert forall i :: 0 <= i < n ==> frs[..n][i] == frs[i] && toks[..n][i] == toks[i];
      RunSound(frs[..n], images, toks[..n]);
      StepSound(Run(frs[..n], images, toks[..n]), frs[n], images, toks[n]);
    }
  }

  /** The tokens a node contributes: a paragraph's tokens or a heading line. */
  function NodeTokens(n: Node): seq<string>
  {
    match n
    case Paragraph(ts) => ts
    case HeadingLine(t) => [t]
    case _ => []
  }

  function TokenBlocks(nodes: seq<Node>): (r: seq<seq<string>>)
    ensures |r| == |nodes| && forall i :: 0 <= i < |nodes| ==> r[i] == NodeTokens(nodes[i])
  {
    seq(|nodes|, i requires 0 <= i < |nodes| => NodeTokens(nodes[i]))
  }

  /** The tokens of a node sequence, in order. */
  function Tokens(nodes: seq<Node>): seq<string>
  {
    Concat(TokenBlocks(nodes))
  }

  /** The tokens of the non-blank fragments, in input order. */
  function Kept(frs: seq<Fragment>, toks: seq<string>): seq<string>
    requires |toks| == |frs|
  {
    if frs == [] then []
    else
      var n := |frs| - 1;
      Kept(frs[..n], toks[..n]) + (if NonBlank(frs[n].text) then [toks[n]] else [])
  }

  lemma TokensAppend(a: seq<Node>, b: seq<Node>)
    ensures Tokens(a + b) == Tokens(a) + Tokens(b)
  {
    assert TokenBlocks(a + b) == TokenBlocks(a) + TokenBlocks(b);
    ConcatAppend(TokenBlocks(a), TokenBlocks(b));
  }

  lemma TokensSnoc(nodes: seq<Node>, n: Node)
    ensures Tokens(nodes + [n]) == Tokens(nodes) + NodeTokens(n)
  {
    TokensAppend(nodes, [n]);
    assert TokenBlocks([n]) == [NodeTokens(n)];
    ConcatSingle(NodeTokens(n));
  }

  lemma TokensFlush(nodes: seq<Node>, para: seq<string>)
    requires ParagraphTokens(para)
    ensures Tokens(Flush(nodes, para)) == Tokens(nodes) + para
  {
    if para != [] {
      ParagraphTextNonEmpty(para);
      TokensSnoc(nodes, Paragraph(para));
    } else {
      assert Tokens(nodes) + para == Tokens(nodes);
    }
  }

  lemma {:induction false} TokensOfPictures(imgs: seq<ImageRecord>)
    ensures Tokens(Pictures(imgs)) == []
  {
    if imgs != [] {
      TokensOfPictures(imgs[..|imgs| - 1]);
      TokensSnoc(Pictures(imgs[..|imgs| - 1]), Picture(imgs[|imgs| - 1]));
    }
  }

  lemma TokensOfImageBlock(images: seq<ImageRecord>, p: int)
    ensures Tokens(LeavePage(images, p)) == [] && Tokens(EndPage(images, p)) == []
  {
    var pics := Pictures(OnPage(images, p));
    TokensOfPictures(OnPage(images, p));
    TokensSnoc([], Spacer);
    assert [] + [Spacer] == [Spacer];
    TokensAppend([Spacer], pics);
    TokensSnoc([Spacer] + pics, Spacer);
    assert TokenBlocks([]) == [];
  }

  /** The emitted tokens followed by the pending paragraph: what a state has consumed. */
  function Consumed(s: Asm): seq<string>
  {
    Tokens(s.nodes) + s.para
  }

  lemma EnterPageTokens(s: Asm, p: int, images: seq<ImageRecord>)
    requires SoundState(s)
    ensures Consumed(EnterPage(s, p, images)) == Consumed(s)
  {
    if p != s.page {
      TokensFlush(s.nodes, s.para);
      TokensAppend(Flush(s.nodes, s.para), LeavePage(images, s.page));
      TokensOfImageBlock(images, s.page);
    }
  }

  lemma BreakLineTokens(s: Asm, y: real, size: real)
    requires SoundState(s)
    ensures Consumed(BreakLine(s, y, size)) == Consumed(s)
  {
    if IsLineBreak(s.lastY, y, size) && s.para != [] {
      TokensFlush(s.nodes, s.para);
    }
  }

  lemma AddTokenTokens(s: Asm, tok: string, y: real)
    requires SoundState(s)
    ensures Consumed(AddToken(s, tok, y)) == Consumed(s) + [tok]
  {
    if IsHeadingToken(tok) {
      TokensFlush(s.nodes, s.para);
      TokensSnoc(Flush(s.nodes, s.para), HeadingLine(tok));
    }
  }

  /** One step appends the fragment's token, if it has one, to what the state has consumed. */
  lemma StepTokens(s: Asm, e: Fragment, images: seq<ImageRecord>, tok: string)
    requires SoundState(s)
    ensures Consumed(Step(s, e, images, tok)) == Consumed(s) + (if NonBlank(e.text) then [tok] else [])
  {
    if NonBlank(e.text) {
      var s1 := EnterPage(s, e.page, images);
      EnterPageTokens(s, e.page, images);
      EnterPageSound(s, e.page, images);
      var s2 := BreakLine(s1, e.y0, e.size);
      BreakLineTokens(s1, e.y0, e.size);
      BreakLineSound(s1, e.y0, e.size);
      AddTokenTokens(s2, tok, e.y0);
    }
  }

  lemma {:induction false} RunTokens(frs: seq<Fragment>, images: seq<ImageRecord>, toks: seq<string>)
    requires |toks| == |frs| && TokensNonBlank(frs, toks)
    ensures Consumed(Run(frs, images, toks)) == Kept(frs, toks)
  {
    if frs == [] {
      assert TokenBlocks([]) == [];
    } else {
      var n := |frs| - 1;
      assert forall i :: 0 <= i < n ==> frs[..n][i] == frs[i] && toks[..n][i] == toks[i];
      RunTokens(frs[..n], images, toks[..n]);
      RunSound(frs[..n], images, toks[..n]);
      StepTokens(Run(frs[..n], images, toks[..n]), frs[n], images, toks[n]);
    }
  }

  /**
   * Every non-blank fragment contributes its token exactly once, in input
   * order, either as a heading line or inside a paragraph; headings are the
   * tokens starting with '#', paragraph tokens are the others.
   */
  lemma FinalTokens(frs: seq<Fragment>, images: seq<ImageRecord>, st: Stats)
    ensures var toks := Formatted(frs, st);
      Tokens(FinalNodes(frs, images, toks)) == Kept(frs, toks) && SoundNodes(FinalNodes(frs, images, toks))
  {
    var toks := Formatted(frs, st);
    var s := Run(frs, images, toks);
    FormattedNonBlank(frs, st);
    RunTokens(frs, images, toks);
    RunSound(frs, images, toks);
    TokensFlush(s.nodes, s.para);
    TokensAppend(Flush(s.nodes, s.para), EndPage(images, s.page));
    TokensOfImageBlock(images, s.page);
    FlushSound(s.nodes, s.para);
    ImageBlockSound(Flush(s.nodes, s.para), images, s.page);
  }

  // ----- where the images go -----

  function PictureBlocks(nodes: seq<Node>): (r: seq<seq<ImageRecord>>)
    ensures |r| == |nodes| && forall i :: 0 <= i < |nodes| ==> r[i] == (if nodes[i].Picture? then [nodes[i].img] else [])
  {
    seq(|nodes|, i requires 0 <= i < |nodes| => if nodes[i].Picture? then [nodes[i].img] else [])
  }

  function ConcatImages(blocks: seq<seq<ImageRecord>>): seq<ImageRecord>
  {
    if blocks == [] then [] else ConcatImages(blocks[..|blocks| - 1]) + blocks[|blocks| - 1]
  }

  /** The images a node sequence shows, in order. */
  function PicturesIn(nodes: seq<Node>): seq<ImageRecord>
  {
    ConcatImages(PictureBlocks(nodes))
  }

  lemma ConcatImagesSnoc(a: seq<seq<ImageRecord>>, x: seq<ImageRecord>)
    ensures ConcatImages(a + [x]) == ConcatImages(a) + x
  {
    SnocParts(a, x);
  }

  lemma {:induction false} ConcatImagesAppend(a: seq<seq<ImageRecord>>, b: seq<seq<ImageRecord>>)
    ensures ConcatImages(a + b) == ConcatImages(a) + ConcatImages(b)
    decreases |b|
  {
    if b == [] {
      AppendEmpty(a);
      AppendEmpty(ConcatImages(a));
    } else {
      var front, last := b[..|b| - 1], b[|b| - 1];
      ConcatImagesAppend(a, front);
      Assoc(a, front, [last]);
      ConcatImagesSnoc(a + front, last);
      ConcatImagesSnoc(front, last);
      Assoc(ConcatImages(a), ConcatImages(front), last);
      SplitLast(b);
    }
  }

  lemma PicturesAppend(a: seq<Node>, b: seq<Node>)
    ensures PicturesIn(a + b) == PicturesIn(a) + PicturesIn(b)
  {
    assert PictureBlocks(a + b) == PictureBlocks(a) + PictureBlocks(b);
    ConcatImagesAppend(PictureBlocks(a), PictureBlocks(b));
  }

  lemma PicturesSnoc(nodes: seq<Node>, n: Node)
    ensures PicturesIn(nodes + [n]) == PicturesIn(nodes) + (if n.Picture? then [n.img] else [])
  {
    PicturesAppend(nodes, [n]);
    var x := if n.Picture? then [n.img] else [];
    assert PictureBlocks([n]) == [x];
    ConcatImagesSingle(x);
  }

  lemma ConcatImagesSingle(x: seq<ImageRecord>)
    ensures ConcatImages([x]) == x
  {
    assert [x][..0] == [];
  }

  lemma PicturesEmpty()
    ensures PicturesIn([]) == []
  {
    assert PictureBlocks([]) == [];
  }

  lemma {:induction false} PicturesOfPictures(imgs: seq<ImageRecord>)
    ensures PicturesIn(Pictures(imgs)) == imgs
  {
    if imgs == [] {
      PicturesEmpty();
    } else {
      var k := |imgs| - 1;
      PicturesOfPictures(imgs[..k]);
      PicturesSnoc(Pictures(imgs[..k]), Picture(imgs[k]));
      assert imgs[..k] + [imgs[k]] == imgs;
    }
  }

  lemma PicturesOfImageBlock(nodes: seq<Node>, images: seq<ImageRecord>, p: int)
    ensures PicturesIn(nodes + LeavePage(images, p)) == PicturesIn(nodes) + OnPage(images, p)
    ensures PicturesIn(nodes + EndPage(images, p)) == PicturesIn(nodes) + OnPage(images, p)
  {
    var imgs := OnPage(images, p);
    if imgs == [] {
      assert LeavePage(images, p) == [] && EndPage(images, p) == [];
      assert nodes + [] == nodes;
    } else {
      var head := nodes + [Spacer] + Pictures(imgs);
      PicturesSpacerThen(nodes, imgs);
      PicturesSnoc(head, Spacer);
      ImageBlockAssoc(nodes, Pictures(imgs));
      assert LeavePage(images, p) == [Spacer] + Pictures(imgs) + [Spacer];
      assert EndPage(images, p) == [Spacer] + Pictures(imgs);
    }
  }

  lemma ImageBlockAssoc(nodes: seq<Node>, pics: seq<Node>)
    ensures nodes + ([Spacer] + pics + [Spacer]) == (nodes + [Spacer] + pics) + [Spacer]
    ensures nodes + ([Spacer] + pics) == nodes + [Spacer] + pics
  {
  }

  lemma PicturesSpacerThen(nodes: seq<Node>, imgs: seq<ImageRecord>)
    ensures PicturesIn(nodes + [Spacer] + Pictures(imgs)) == PicturesIn(nodes) + imgs
  {
    PicturesOfPictures(imgs);
    PicturesSnoc(nodes, Spacer);
    PicturesAppend(nodes + [Spacer], Pictures(imgs));
  }

  lemma PicturesFlush(nodes: seq<Node>, para: seq<string>)
    ensures PicturesIn(Flush(nodes, para)) == PicturesIn(nodes)
  {
    PicturesSnoc(nodes, Paragraph(para));
  }

  /**
   * The pages the walk stands on, in order: page 1, then the page of every
   * non-blank fragment whose page differs from the current one.
   */
  function Trail(frs: seq<Fragment>): (t: seq<int>)
    ensures |t| >= 1 && t[0] == 1
  {
    if frs == [] then [1]
    else
      var t := Trail(frs[..|frs| - 1]);
      var e := frs[|frs| - 1];
      if !NonBlank(e.text) || e.page == t[|t| - 1] then t else t + [e.page]
  }

  /** The images of each page of `pages` in turn. */
  function ImagesAlong(images: seq<ImageRecord>, pages: seq<int>): seq<ImageRecord>
  {
    if pages == [] then [] else ImagesAlong(images, pages[..|pages| - 1]) + OnPage(images, pages[|pages| - 1])
  }

  lemma StepPictures(s: Asm, e: Fragment, images: seq<ImageRecord>, tok: string)
    ensures var s' := Step(s, e, images, tok);
      && PicturesIn(s'.nodes) == PicturesIn(s.nodes) + (if NonBlank(e.text) && e.page != s.page then OnPage(images, s.page) else [])
      && s'.page == (if NonBlank(e.text) then e.page else s.page)
  {
    if NonBlank(e.text) {
      var s1 := EnterPage(s, e.page, images);
      EnterPagePictures(s, e.page, images);
      var s2 := BreakLine(s1, e.y0, e.size);
      BreakLinePictures(s1, e.y0, e.size);
      AddTokenPictures(s2, tok, e.y0);
    }
  }

  /** Entering a new page writes the images of the page left behind. */
  lemma EnterPagePictures(s: Asm, p: int, images: seq<ImageRecord>)
    ensures var s' := EnterPage(s, p, images);
      PicturesIn(s'.nodes) == PicturesIn(s.nodes) + (if p != s.page then OnPage(images, s.page) else []) && s'.page == p
  {
    if p != s.page {
      PicturesFlush(s.nodes, s.para);
      PicturesOfImageBlock(Flush(s.nodes, s.para), images, s.page);
    }
  }

  lemma BreakLinePictures(s: Asm, y: real, size: real)
    ensures var s' := BreakLine(s, y, size); PicturesIn(s'.nodes) == PicturesIn(s.nodes) && s'.page == s.page
  {
    PicturesFlush(s.nodes, s.para);
  }

  lemma AddTokenPictures(s: Asm, tok: string, y: real)
    ensures var s' := AddToken(s, tok, y); PicturesIn(s'.nodes) == PicturesIn(s.nodes) && s'.page == s.page
  {
    PicturesFlush(s.nodes, s.para);
    PicturesSnoc(Flush(s.nodes, s.para), HeadingLine(tok));
  }

  lemma {:induction false} RunPictures(frs: seq<Fragment>, images: seq<ImageRecord>, toks: seq<string>)
    requires |toks| == |frs|
    ensures var t := Trail(frs);
      && Run(frs, images, toks).page == t[|t| - 1]
      && PicturesIn(Run(frs, images, toks).nodes) == ImagesAlong(images, t[..|t| - 1])
  {
    if frs == [] {
      PicturesEmpty();
    } else {
      var n := |frs| - 1;
      var pre, e := frs[..n], frs[n];
      SplitLast(frs);
      RunPictures(pre, images, toks[..n]);
      var s := Run(pre, images, toks[..n]);
      StepPictures(s, e, images, toks[n]);
      TrailStep(pre, e, images);
      PicturesAlongStep(s, Run(frs, images, toks), Trail(pre), Trail(frs), images, e);
    }
  }

  /** The picture invariant of `RunPictures` survives one step of the walk and of its trail. */
  lemma PicturesAlongStep(s: Asm, s': Asm, t: seq<int>, t': seq<int>, images: seq<ImageRecord>, e: Fragment)
    requires t != [] && t' != []
    requires s.page == t[|t| - 1] && PicturesIn(s.nodes) == ImagesAlong(images, t[..|t| - 1])
    requires PicturesIn(s'.nodes) == PicturesIn(s.nodes) + (if NonBlank(e.text) && e.page != s.page then OnPage(images, s.page) else [])
    requires s'.page == (if NonBlank(e.text) then e.page else s.page)
    requires t'[|t'| - 1] == (if NonBlank(e.text) then e.page else t[|t| - 1])
    requires ImagesAlong(images, t'[..|t'| - 1]) ==
      ImagesAlong(images, t[..|t| - 1]) + (if NonBlank(e.text) && e.page != t[|t| - 1] then OnPage(images, t[|t| - 1]) else [])
    ensures s'.page == t'[|t'| - 1] && PicturesIn(s'.nodes) == ImagesAlong(images, t'[..|t'| - 1])
  {
  }

  lemma TrailStep(pre: seq<Fragment>, e: Fragment, images: seq<ImageRecord>)
    ensures var t, t' := Trail(pre), Trail(pre + [e]);
      && t'[|t'| - 1] == (if NonBlank(e.text) then e.page else t[|t| - 1])
      && ImagesAlong(images, t'[..|t'| - 1]) ==
           ImagesAlong(images, t[..|t| - 1]) + (if NonBlank(e.text) && e.page != t[|t| - 1] then OnPage(images, t[|t| - 1]) else [])
  {
    SnocParts(pre, e);
    var t := Trail(pre);
    if NonBlank(e.text) && e.page != t[|t| - 1] {
      SnocParts(t, e.page);
      SplitLast(t);
    }
  }

  /**
   * Images are written exactly for the pages the walk stands on, each page's
   * images in extraction order, pages in the order the walk reaches them;
   * images of a page no fragment reaches are never written.
   */
  lemma FinalPictures(frs: seq<Fragment>, images: seq<ImageRecord>, toks: seq<string>)
    requires |toks| == |frs|
    ensures PicturesIn(FinalNodes(frs, images, toks)) == ImagesAlong(images, Trail(frs))
  {
    var s := Run(frs, images, toks);
    var t := Trail(frs);
    RunPictures(frs, images, toks);
    PicturesFlush(s.nodes, s.para);
    PicturesOfImageBlock(Flush(s.nodes, s.para), images, s.page);
    SplitLast(t);
  }

  /** The walk stands on page 1 and on the page of every non-blank fragment, and on no other. */
  lemma {:induction false} TrailMembers(frs: seq<Fragment>, p: int)
    ensures p in Trail(frs) <==> p == 1 || exists k :: 0 <= k < |frs| && NonBlank(frs[k].text) && frs[k].page == p
  {
    if frs != [] {
      var pre := frs[..|frs| - 1];
      TrailMembers(pre, p);
      TrailMembers(pre, frs[|frs| - 1].page);
      assert forall k :: 0 <= k < |pre| ==> pre[k] == frs[k];
    }
  }

  /** When the fragments come page by page (pages at least 1, never decreasing), every page is visited once. */
  lemma {:induction false} TrailIncreasing(frs: seq<Fragment>)
    requires forall k :: 0 <= k < |frs| ==> frs[k].page >= 1
    requires forall j, k :: 0 <= j < k < |frs| ==> frs[j].page <= frs[k].page
    ensures forall i, j :: 0 <= i < j < |Trail(frs)| ==> Trail(frs)[i] < Trail(frs)[j]
  {
    if frs != [] {
      var pre := frs[..|frs| - 1];
      var e := frs[|frs| - 1];
      assert forall k :: 0 <= k < |pre| ==> pre[k] == frs[k];
      TrailIncreasing(pre);
      var t := Trail(pre);
      var last := t[|t| - 1];
      TrailMembers(pre, last);
      assert last <= e.page;
    }
  }

  // ----- paragraphs -----

  /**
   * A token joins the open paragraph exactly when it is not a heading, the
   * page did not change and the vertical gap is at most 80% of its font size;
   * it then leaves the emitted nodes alone.  Otherwise the paragraph is
   * flushed first, followed by the left page's images on a page change, and
   * the token starts the next paragraph or stands as a heading line.
   */
  lemma JoinsParagraph(s: Asm, e: Fragment, images: seq<ImageRecord>, tok: string)
    requires NonBlank(e.text) && s.para != []
    ensures var joins := e.page == s.page && !IsLineBreak(s.lastY, e.y0, e.size) && !IsHeadingToken(tok);
      && (Step(s, e, images, tok).para == s.para + [tok] <==> joins)
      && (joins ==> Step(s, e, images, tok).nodes == s.nodes)
      && (!joins ==>
            && Step(s, e, images, tok).nodes ==
                 Flush(s.nodes, s.para) + (if e.page != s.page then LeavePage(images, s.page) else [])
                 + (if IsHeadingToken(tok) then [HeadingLine(tok)] else [])
            && Step(s, e, images, tok).para == (if IsHeadingToken(tok) then [] else [tok]))
  {
    var s2 := BreakLine(EnterPage(s, e.page, images), e.y0, e.size);
    assert |s.para + [tok]| >= 2;
    if e.page != s.page || IsLineBreak(s.lastY, e.y0, e.size) {
      assert s2.para == [];
    }
  }

  /** With one font size throughout, the ladder assigns no heading role at all. */
  lemma UniformSizeHasNoHeadings(frs: seq<Fragment>, x: real)
    requires frs != [] && x > 0.0
    requires forall k :: 0 <= k < |frs| ==> frs[k].size == x
    ensures forall k :: 0 <= k < |frs| ==>
      !Classify(Cleaned(Strip(frs[k].text)), frs[k].size, frs[k].flags, StatsOf(frs).title, StatsOf(frs).subtitle).Heading?
  {
    AverageOfConstant(Sizes(frs), x);
    forall k | 0 <= k < |frs|
      ensures !Classify(Cleaned(Strip(frs[k].text)), frs[k].size, frs[k].flags, StatsOf(frs).title, StatsOf(frs).subtitle).Heading?
    {
      AverageSizeIsNotHeading(Cleaned(Strip(frs[k].text)), frs[k].flags, x);
    }
  }

  // ----- what survives post-processing -----

  /** The nodes that carry text or images: everything but the empty spacer lines. */
  function Content(nodes: seq<Node>): seq<Node>
  {
    if nodes == [] then []
    else
      var k := |nodes| - 1;
      Content(nodes[..k]) + (if nodes[k].Spacer? then [] else [nodes[k]])
  }

  /** Every line of a paragraph, heading or picture is non-blank; a spacer's line is blank. */
  lemma NodeLinesKept(n: Node)
    requires SoundNode(n)
    ensures NonBlankLines(NodeLines(n)) == if n.Spacer? then [] else NodeLines(n)
  {
    match n
    case Paragraph(ts) =>
      ParagraphTextNonEmpty(ts);
      var t := ParagraphText(ts);
      assert !IsSpace(t[0]);
      OneLineKept(t);
    case HeadingLine(t) =>
      assert !IsSpace(t[0]);
      OneLineKept(t);
    case Spacer =>
      assert !NonBlank("");
      var e: seq<string> := [];
      assert [""][..0] == e;
    case Picture(img) =>
      var a, b := ImageLink(img), ImageCaption(img);
      assert a[0] == '!' && b[0] == '*';
      assert !IsSpace(a[0]) && !IsSpace(b[0]);
      assert [a, b][..1] == [a];
      OneLineKept(a);
  }

  lemma OneLineKept(t: string)
    requires NonBlank(t)
    ensures NonBlankLines([t]) == [t]
  {
    assert [t][..0] == [];
  }

  /** Dropping the blank lines of the assembled lines leaves exactly the lines of the content nodes. */
  lemma {:induction false} ContentLines(nodes: seq<Node>)
    requires SoundNodes(nodes)
    ensures NonBlankLines(Lines(nodes)) == Lines(Content(nodes))
  {
    if nodes == [] {
      assert Rendered([]) == [];
    } else {
      var k := |nodes| - 1;
      var pre, n := nodes[..k], nodes[k];
      SplitLast(nodes);
      assert SoundNodes(pre) && SoundNode(n) by {
        assert forall i :: 0 <= i < k ==> pre[i] == nodes[i];
      }
      ContentLines(pre);
      ContentLinesStep(pre, n);
    }
  }

  lemma ContentLinesStep(pre: seq<Node>, n: Node)
    requires SoundNode(n) && NonBlankLines(Lines(pre)) == Lines(Content(pre))
    ensures NonBlankLines(Lines(pre + [n])) == Lines(Content(pre + [n]))
  {
    SnocParts(pre, n);
    LinesSnoc(pre, n);
    NonBlankLinesAppend(Lines(pre), NodeLines(n));
    NodeLinesKept(n);
    if n.Spacer? {
      AppendEmpty(Lines(Content(pre)));
      AppendEmpty(Content(pre));
    } else {
      LinesSnoc(Content(pre), n);
    }
  }

  /** Spacers hold no token and no image. */
  lemma {:induction false} ContentKeeps(nodes: seq<Node>)
    ensures Tokens(Content(nodes)) == Tokens(nodes) && PicturesIn(Content(nodes)) == PicturesIn(nodes)
  {
    if nodes == [] {
      assert TokenBlocks([]) == [];
      PicturesEmpty();
    } else {
      var k := |nodes| - 1;
      var pre, n := nodes[..k], nodes[k];
      SplitLast(nodes);
      ContentKeeps(pre);
      TokensSnoc(pre, n);
      PicturesSnoc(pre, n);
      if n.Spacer? {
        AppendEmpty(Tokens(pre));
        AppendEmpty(PicturesIn(pre));
        AppendEmpty(Content(pre));
      } else {
        TokensSnoc(Content(pre), n);
        PicturesSnoc(Content(pre), n);
      }
    }
  }

  /**
   * What the post-processing keeps of the assembled lines: its non-blank
   * lines are exactly the lines of the non-spacer nodes, which hold every
   * non-blank fragment's token once, in order, and the images of the pages
   * the walk stands on, page by page.
   */
  lemma MarkdownContent(frs: seq<Fragment>, images: seq<ImageRecord>)
    requires frs != []
    ensures var toks := Formatted(frs, StatsOf(frs));
      var nodes := FinalNodes(frs, images, toks);
      && NonBlankLines(PostProcessed(Lines(nodes))) == Lines(Content(nodes))
      && Tokens(Content(nodes)) == Kept(frs, toks)
      && PicturesIn(Content(nodes)) == ImagesAlong(images, Trail(frs))
  {
    var toks := Formatted(frs, StatsOf(frs));
    var nodes := FinalNodes(frs, images, toks);
    FinalTokens(frs, images, StatsOf(frs));
    FinalPictures(frs, images, toks);
    PostProcessKeepsText(Lines(nodes));
    ContentLines(nodes);
    ContentKeeps(nodes);
  }

  // ----- page by page -----

  /** The state on a page the walk has just entered, before any of its fragments. */
  function Fresh(p: int): Asm
  {
    Asm([], [], None, p)
  }

  /** One non-blank fragment handled without a change of page. */
  function LocalStep(g: Asm, e: Fragment, tok: string): Asm
  {
    AddToken(BreakLine(g, e.y0, e.size), tok, e.y0)
  }

  /**
   * The stays of the walk: one state per page it stands on, in order, each
   * built from `Fresh` by that stay's own fragments alone.
   */
  function Stays(frs: seq<Fragment>, toks: seq<string>): (gs: seq<Asm>)
    requires |toks| == |frs|
    ensures gs != []
  {
    if frs == [] then [Fresh(1)]
    else
      var n := |frs| - 1;
      var gs := Stays(frs[..n], toks[..n]);
      var k := |gs| - 1;
      var e := frs[n];
      if !NonBlank(e.text) then gs
      else if e.page == gs[k].page then gs[..k] + [LocalStep(gs[k], e, toks[n])]
      else gs + [LocalStep(Fresh(e.page), e, toks[n])]
  }

  /** The text a stay leaves behind: its nodes and then its last paragraph. */
  function StayText(g: Asm): seq<Node>
  {
    Flush(g.nodes, g.para)
  }

  /** Finished stays: each stay's text followed by the image block of its page. */
  function Closed(gs: seq<Asm>, images: seq<ImageRecord>): seq<Node>
  {
    if gs == [] then []
    else
      var k := |gs| - 1;
      Closed(gs[..k], images) + (StayText(gs[k]) + LeavePage(images, gs[k].page))
  }

  /** The finished stays, then the last stay's text and the images of the last page. */
  function Layout(gs: seq<Asm>, images: seq<ImageRecord>): seq<Node>
    requires gs != []
  {
    var k := |gs| - 1;
    Closed(gs[..k], images) + (StayText(gs[k]) + EndPage(images, gs[k].page))
  }

  /** A state whose nodes come after the nodes `c` written before. */
  function Behind(g: Asm, c: seq<Node>): Asm
  {
    g.(nodes := c + g.nodes)
  }

  /** Paragraphs and heading lines only. */
  predicate TextNodes(nodes: seq<Node>)
  {
    forall i :: 0 <= i < |nodes| ==> nodes[i].Paragraph? || nodes[i].HeadingLine?
  }

  /** Every stay has written text nodes only. */
  predicate StaysWriteText(gs: seq<Asm>)
  {
    forall i :: 0 <= i < |gs| ==> TextNodes(gs[i].nodes)
  }

  /** The stays stand on the pages of `t`, one stay per entry. */
  predicate StaysOn(gs: seq<Asm>, t: seq<int>)
  {
    |gs| == |t| && forall i :: 0 <= i < |gs| ==> gs[i].page == t[i]
  }

  lemma FlushBehind(c: seq<Node>, nodes: seq<Node>, para: seq<string>)
    ensures Flush(c + nodes, para) == c + Flush(nodes, para)
  {
    Assoc(c, nodes, [Paragraph(para)]);
  }

  /** Handling a fragment does not look at the nodes written before. */
  lemma LocalBehind(g: Asm, c: seq<Node>, e: Fragment, tok: string)
    ensures LocalStep(Behind(g, c), e, tok) == Behind(LocalStep(g, e, tok), c)
  {
    FlushBehind(c, g.nodes, g.para);
    var b := BreakLine(g, e.y0, e.size);
    assert BreakLine(Behind(g, c), e.y0, e.size) == Behind(b, c);
    FlushBehind(c, b.nodes, b.para);
    Assoc(c, Flush(b.nodes, b.para), [HeadingLine(tok)]);
  }

  lemma StepSamePage(g: Asm, c: seq<Node>, e: Fragment, images: seq<ImageRecord>, tok: string)
    requires NonBlank(e.text) && e.page == g.page
    ensures Step(Behind(g, c), e, images, tok) == Behind(LocalStep(g, e, tok), c)
  {
    LocalBehind(g, c, e, tok);
  }

  /** A change of page closes the stay: its text and its page's images join the finished nodes. */
  lemma StepNewPage(g: Asm, c: seq<Node>, e: Fragment, images: seq<ImageRecord>, tok: string)
    requires NonBlank(e.text) && e.page != g.page
    ensures Step(Behind(g, c), e, images, tok) ==
      Behind(LocalStep(Fresh(e.page), e, tok), c + (StayText(g) + LeavePage(images, g.page)))
  {
    var c' := c + (StayText(g) + LeavePage(images, g.page));
    FlushBehind(c, g.nodes, g.para);
    Assoc(c, StayText(g), LeavePage(images, g.page));
    AppendEmpty(c');
    assert EnterPage(Behind(g, c), e.page, images) == Behind(Fresh(e.page), c');
    LocalBehind(Fresh(e.page), c', e, tok);
  }

  /** The walk's state is the last stay, behind the finished stays. */
  lemma {:induction false} RunStays(frs: seq<Fragment>, images: seq<ImageRecord>, toks: seq<string>)
    requires |toks| == |frs|
    ensures var gs := Stays(frs, toks); var k := |gs| - 1;
      Run(frs, images, toks) == Behind(gs[k], Closed(gs[..k], images))
  {
    if frs != [] {
      var n := |frs| - 1;
      var e, tok := frs[n], toks[n];
      RunStays(frs[..n], images, toks[..n]);
      var gs := Stays(frs[..n], toks[..n]);
      var k := |gs| - 1;
      var g, c := gs[k], Closed(gs[..k], images);
      if NonBlank(e.text) && e.page == g.page {
        StepSamePage(g, c, e, images, tok);
        SnocParts(gs[..k], LocalStep(g, e, tok));
      } else if NonBlank(e.text) {
        StepNewPage(g, c, e, images, tok);
        SnocParts(gs, LocalStep(Fresh(e.page), e, tok));
      }
    }
  }

  /** The assembled nodes are the layout of the stays. */
  lemma FinalLayout(frs: seq<Fragment>, images: seq<ImageRecord>, toks: seq<string>)
    requires |toks| == |frs|
    ensures FinalNodes(frs, images, toks) == Layout(Stays(frs, toks), images)
  {
    RunStays(frs, images, toks);
    var gs := Stays(frs, toks);
    var k := |gs| - 1;
    var g, c := gs[k], Closed(gs[..k], images);
    FlushBehind(c, g.nodes, g.para);
    Assoc(c, StayText(g), EndPage(images, g.page));
  }

  lemma LocalStepPage(g: Asm, e: Fragment, tok: string)
    ensures LocalStep(g, e, tok).page == g.page
  {
  }

  /** The stays are on the pages of the trail, one stay per page visit. */
  lemma {:induction false} StaysTrail(frs: seq<Fragment>, toks: seq<string>)
    requires |toks| == |frs|
    ensures StaysOn(Stays(frs, toks), Trail(frs))
  {
    if frs != [] {
      var n := |frs| - 1;
      var e, tok := frs[n], toks[n];
      StaysTrail(frs[..n], toks[..n]);
      var gs, t := Stays(frs[..n], toks[..n]), Trail(frs[..n]);
      var k := |gs| - 1;
      if NonBlank(e.text) && e.page == gs[k].page {
        LocalStepPage(gs[k], e, tok);
        StaysOnSame(gs, t, LocalStep(gs[k], e, tok));
      } else if NonBlank(e.text) {
        LocalStepPage(Fresh(e.page), e, tok);
        StaysOnNew(gs, t, LocalStep(Fresh(e.page), e, tok));
      }
    }
  }

  lemma StaysOnSame(gs: seq<Asm>, t: seq<int>, l: Asm)
    requires gs != [] && StaysOn(gs, t) && l.page == gs[|gs| - 1].page
    ensures StaysOn(gs[..|gs| - 1] + [l], t) && gs[|gs| - 1].page == t[|t| - 1]
  {
    var k := |gs| - 1;
    assert forall i :: 0 <= i < k ==> (gs[..k] + [l])[i] == gs[i];
  }

  lemma StaysOnNew(gs: seq<Asm>, t: seq<int>, l: Asm)
    requires StaysOn(gs, t)
    ensures StaysOn(gs + [l], t + [l.page])
  {
    assert forall i :: 0 <= i < |gs| ==> (gs + [l])[i] == gs[i];
    assert forall i :: 0 <= i < |t| ==> (t + [l.page])[i] == t[i];
  }

  lemma FlushText(nodes: seq<Node>, para: seq<string>)
    requires TextNodes(nodes)
    ensures TextNodes(Flush(nodes, para))
  {
  }

  lemma LocalStepText(g: Asm, e: Fragment, tok: string)
    requires TextNodes(g.nodes)
    ensures TextNodes(LocalStep(g, e, tok).nodes)
  {
    BreakLineText(g, e.y0, e.size);
    AddTokenText(BreakLine(g, e.y0, e.size), tok, e.y0);
  }

  lemma BreakLineText(g: Asm, y: real, size: real)
    requires TextNodes(g.nodes)
    ensures TextNodes(BreakLine(g, y, size).nodes)
  {
    FlushText(g.nodes, g.para);
  }

  lemma AddTokenText(g: Asm, tok: string, y: real)
    requires TextNodes(g.nodes)
    ensures TextNodes(AddToken(g, tok, y).nodes)
  {
    var f := Flush(g.nodes, g.para);
    FlushText(g.nodes, g.para);
    assert forall i :: 0 <= i < |f| ==> (f + [HeadingLine(tok)])[i] == f[i];
  }

  /** A stay writes only paragraphs and heading lines; images are written only between stays. */
  lemma {:induction false} StaysHoldText(frs: seq<Fragment>, toks: seq<string>)
    requires |toks| == |frs|
    ensures var gs := Stays(frs, toks); forall i :: 0 <= i < |gs| ==> TextNodes(StayText(gs[i]))
  {
    StaysNodesText(frs, toks);
    var gs := Stays(frs, toks);
    forall i | 0 <= i < |gs|
      ensures TextNodes(StayText(gs[i]))
    {
      FlushText(gs[i].nodes, gs[i].para);
    }
  }

  lemma {:induction false} StaysNodesText(frs: seq<Fragment>, toks: seq<string>)
    requires |toks| == |frs|
    ensures StaysWriteText(Stays(frs, toks))
  {
    if frs != [] {
      var n := |frs| - 1;
      var e, tok := frs[n], toks[n];
      StaysNodesText(frs[..n], toks[..n]);
      var gs := Stays(frs[..n], toks[..n]);
      var k := |gs| - 1;
      if NonBlank(e.text) && e.page == gs[k].page {
        assert TextNodes(gs[k].nodes);
        LocalStepText(gs[k], e, tok);
        WriteTextSame(gs, LocalStep(gs[k], e, tok));
      } else if NonBlank(e.text) {
        LocalStepText(Fresh(e.page), e, tok);
        WriteTextNew(gs, LocalStep(Fresh(e.page), e, tok));
      }
    }
  }

  lemma WriteTextSame(gs: seq<Asm>, l: Asm)
    requires gs != [] && StaysWriteText(gs) && TextNodes(l.nodes)
    ensures StaysWriteText(gs[..|gs| - 1] + [l])
  {
    var k := |gs| - 1;
    assert forall i :: 0 <= i < k ==> (gs[..k] + [l])[i] == gs[i];
  }

  lemma WriteTextNew(gs: seq<Asm>, l: Asm)
    requires StaysWriteText(gs) && TextNodes(l.nodes)
    ensures StaysWriteText(gs + [l])
  {
    assert forall i :: 0 <= i < |gs| ==> (gs + [l])[i] == gs[i];
  }

  /**
   * The document page by page: for each page of the trail in turn, the
   * text written on that stay (paragraphs and heading lines only), then the
   * image block of that page—empty lines around it, except at the very end
   * where none follows.
   */
  lemma PageByPage(frs: seq<Fragment>, images: seq<ImageRecord>, toks: seq<string>)
    requires |toks| == |frs|
    ensures var gs, t := Stays(frs, toks), Trail(frs);
      && FinalNodes(frs, images, toks) == Layout(gs, images)
      && StaysOn(gs, t)
      && (forall i :: 0 <= i < |gs| ==> TextNodes(StayText(gs[i])))
  {
    FinalLayout(frs, images, toks);
    StaysTrail(frs, toks);
    StaysHoldText(frs, toks);
  }
}
