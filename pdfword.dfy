/**
 * `pdf_to_word`: the page loop that writes a title, a page break and a page
 * heading per page, the page's text through `add_text_to_word_doc`, and the
 * page's images with their captions.  The file system is reduced to two sets
 * of image paths: those that exist on disk and those that the document
 * library fails to embed.
 */
module PdfWord {
  import opened Wrappers
  import opened Seqs
  import opened Text
  import opened Fragments
  import opened XmlText
  import opened Images
  import opened Word

  /** A text span of the page's text dictionary (blocks and lines flattened). */
  datatype Span = Span(text: string, size: real, flags: int, y0: real)

  /** One PDF page: its spans and its embedded images. */
  datatype PdfPage = PdfPage(spans: seq<Span>, images: seq<RawImage>)

  /** The success dictionary of `pdf_to_word`, with the saved document. */
  datatype WordResult = WordResult(message: string, wordPath: string, imagesCount: nat, pagesCount: nat,
                                   document: seq<Block>)

  /** The fragments of page `k` (0-based): spans whose cleaned text is non-blank, carrying the cleaned text. */
  function PageFragments(spans: seq<Span>, k: nat): seq<Fragment>
  {
    if spans == [] then []
    else
      var sp := spans[|spans| - 1];
      var cleaned := CleanTextForXml(sp.text);
      PageFragments(spans[..|spans| - 1], k) +
        (if NonBlank(cleaned) then [Fragment(cleaned, sp.size, sp.flags, sp.y0, k + 1)] else [])
  }

  /** `f"第 {page_num + 1} 页"`. */
  function PageTitle(k: nat): string
  {
    "第 " + NatToString(k + 1) + " 页"
  }

  /** `f"图片 {index} ({width}x{height})"`. */
  function CaptionText(img: ImageRecord): string
  {
    "图片 " + NatToString(img.index) + " (" + NatToString(img.width) + "x" + NatToString(img.height) + ")"
  }

  /** `f"[图片: {filename}]"`. */
  function PlaceholderText(img: ImageRecord): string
  {
    "[图片: " + img.filename + "]"
  }

  /**
   * The blocks one extracted image adds: always a centred paragraph; the
   * picture and its caption when the file exists and embeds; a placeholder
   * after the empty paragraph when embedding raises.
   */
  function ImageBlocks(img: ImageRecord, onDisk: set<string>, failing: set<string>): seq<Block>
  {
    if img.path !in onDisk then [ImageParagraph(None)]
    else if img.path in failing then [ImageParagraph(None), CenteredText(PlaceholderText(img))]
    else [ImageParagraph(Some(img.path)), Caption(CaptionText(img))]
  }

  function ImagesBlocks(imgs: seq<ImageRecord>, onDisk: set<string>, failing: set<string>): seq<Block>
  {
    if imgs == [] then []
    else ImagesBlocks(imgs[..|imgs| - 1], onDisk, failing) + ImageBlocks(imgs[|imgs| - 1], onDisk, failing)
  }

  /** `images_dir = os.path.join(directory, f"{base_filename}_images")`. */
  function ImagesDir(directory: string, base: string): string
  {
    JoinPath(directory, base + "_images")
  }

  /** The blocks page `k` adds to the document. */
  function PageBlocks(page: PdfPage, k: nat, directory: string, base: string,
                      onDisk: set<string>, failing: set<string>): seq<Block>
  {
    PageHead(k) + TextBlocks(PageFragments(page.spans, k)) +
      ImagesBlocks(PageImages(page.images, k, ImagesDir(directory, base), base), onDisk, failing)
  }

  /** The document after the title and the first `n` pages. */
  function DocumentBlocks(pages: seq<PdfPage>, n: nat, directory: string, base: string,
                          onDisk: set<string>, failing: set<string>): seq<Block>
    requires n <= |pages|
  {
    if n == 0 then [Heading(0, base)]
    else
      DocumentBlocks(pages, n - 1, directory, base, onDisk, failing) +
      PageBlocks(pages[n - 1], n - 1, directory, base, onDisk, failing)
  }

  /** All records `extract_images_from_page` returns for the first `n` pages. */
  function AllImages(pages: seq<PdfPage>, n: nat, directory: string, base: string): seq<ImageRecord>
    requires n <= |pages|
  {
    if n == 0 then []
    else
      AllImages(pages, n - 1, directory, base) +
      PageImages(pages[n - 1].images, n - 1, ImagesDir(directory, base), base)
  }

  /** What `pdf_to_word(pdf_path, output_path)` returns. */
  function WordConversionOf(docxAvailable: bool, pdfExists: bool, pdfPath: string, directory: string,
                            base: string, pages: seq<PdfPage>, outputPath: Option<string>,
                            onDisk: set<string>, failing: set<string>): Result<WordResult>
  {
    if !docxAvailable then
      Failure("python-docx library is not available. Please install it to use Word conversion feature.")
    else if !pdfExists then Failure("文件不存在: " + pdfPath)
    else if pages == [] then Failure("PDF文件为空")
    else
      var path := if outputPath.Some? then outputPath.value else JoinPath(directory, base + ".docx");
      Success(WordResult("PDF成功转换为Word文档", path, |AllImages(pages, |pages|, directory, base)|, |pages|,
                         DocumentBlocks(pages, |pages|, directory, base, onDisk, failing)))
  }

  /** The span loop of one page: `page_text_elements`. */
  method CollectPageFragments(spans: seq<Span>, k: nat) returns (frs: seq<Fragment>)
    ensures frs == PageFragments(spans, k)
  {
    frs := [];
    var i := 0;
    while i < |spans|
      invariant 0 <= i <= |spans|
      invariant frs == PageFragments(spans[..i], k)
    {
      var sp := spans[i];
      var cleaned := CleanTextForXml(sp.text);
      if NonBlank(cleaned) {
        frs := frs + [Fragment(cleaned, sp.size, sp.flags, sp.y0, k + 1)];
      }
      assert spans[..i + 1][..i] == spans[..i];
      i := i + 1;
    }
    assert spans[..i] == spans;
  }

  /** The image loop of one page. */
  method AddPageImages(doc: WordDocument, imgs: seq<ImageRecord>, onDisk: set<string>, failing: set<string>)
    modifies doc
    ensures doc.blocks == old(doc.blocks) + ImagesBlocks(imgs, onDisk, failing)
  {
    ghost var before := doc.blocks;
    var i := 0;
    while i < |imgs|
      invariant 0 <= i <= |imgs|
      invariant doc.blocks == before + ImagesBlocks(imgs[..i], onDisk, failing)
    {
      AddImage(doc, imgs[i], onDisk, failing);
      ImagesBlocksPrefix(imgs, i, onDisk, failing);
      Assoc(before, ImagesBlocks(imgs[..i], onDisk, failing), ImageBlocks(imgs[i], onDisk, failing));
      i := i + 1;
    }
    TakeAll(imgs);
  }

  /** One iteration of the image loop: the paragraph, then the picture and caption or the placeholder. */
  method AddImage(doc: WordDocument, img: ImageRecord, onDisk: set<string>, failing: set<string>)
    modifies doc
    ensures doc.blocks == old(doc.blocks) + ImageBlocks(img, onDisk, failing)
  {
    doc.AddImageParagraph();
    if img.path in onDisk {
      if img.path in failing {
        doc.AddCenteredText("[图片: " + img.filename + "]");
      } else {
        doc.AddPicture(img.path);
        doc.AddCaption("图片 " + NatToString(img.index) + " (" + NatToString(img.width) + "x" + NatToString(img.height) + ")");
      }
    }
  }

  /** One more image of the loop is one more image's blocks. */
  lemma ImagesBlocksPrefix(imgs: seq<ImageRecord>, i: nat, onDisk: set<string>, failing: set<string>)
    requires i < |imgs|
    ensures ImagesBlocks(imgs[..i + 1], onDisk, failing)
      == ImagesBlocks(imgs[..i], onDisk, failing) + ImageBlocks(imgs[i], onDisk, failing)
  {
    assert imgs[..i + 1][..i] == imgs[..i];
  }

  /** The page break (after the first page) and the page heading. */
  function PageHead(k: nat): seq<Block>
  {
    (if k > 0 then [PageBreak] else []) + [Heading(1, PageTitle(k))]
  }

  /** One iteration of the page loop. */
  method AddPage(doc: WordDocument, page: PdfPage, k: nat, directory: string, base: string,
                 onDisk: set<string>, failing: set<string>) returns (images: seq<ImageRecord>)
    modifies doc
    ensures doc.blocks == old(doc.blocks) + PageBlocks(page, k, directory, base, onDisk, failing)
    ensures images == PageImages(page.images, k, ImagesDir(directory, base), base)
  {
    ghost var before := doc.blocks;
    if k > 0 {
      doc.AddPageBreak();
    }
    doc.AddHeading("第 " + NatToString(k + 1) + " 页", 1);
    assert doc.blocks == before + PageHead(k);
    images := ExtractImagesFromPage(page.images, k, JoinPath(directory, base + "_images"), base);
    var frs := CollectPageFragments(page.spans, k);
    AddTextToWordDoc(doc, frs);
    AddPageImages(doc, images, onDisk, failing);
    Regroup(before, PageHead(k), TextBlocks(frs), ImagesBlocks(images, onDisk, failing));
  }

  lemma Regroup(a: seq<Block>, b: seq<Block>, c: seq<Block>, d: seq<Block>)
    ensures a + b + c + d == a + (b + c + d)
  {
  }

  /** `pdf_to_word(pdf_path, output_path)`. */
  method PdfToWord(docxAvailable: bool, pdfExists: bool, pdfPath: string, directory: string, base: string,
                   pages: seq<PdfPage>, outputPath: Option<string>, onDisk: set<string>, failing: set<string>)
    returns (r: Result<WordResult>)
    ensures r == WordConversionOf(docxAvailable, pdfExists, pdfPath, directory, base, pages, outputPath, onDisk, failing)
  {
    if !docxAvailable {
      return Failure("python-docx library is not available. Please install it to use Word conversion feature.");
    }
    if !pdfExists {
      return Failure("文件不存在: " + pdfPath);
    }
    if |pages| == 0 {
      return Failure("PDF文件为空");
    }
    var doc := new WordDocument();
    doc.AddHeading(base, 0);
    var extracted: seq<ImageRecord> := [];
    var k := 0;
    while k < |pages|
      invariant 0 <= k <= |pages|
      invariant doc.blocks == DocumentBlocks(pages, k, directory, base, onDisk, failing)
      invariant extracted == AllImages(pages, k, directory, base)
    {
      var images := AddPage(doc, pages[k], k, directory, base, onDisk, failing);
      extracted := extracted + images;
      k := k + 1;
    }
    var path := if outputPath.Some? then outputPath.value else JoinPath(directory, base + ".docx");
    r := Success(WordResult("PDF成功转换为Word文档", path, |extracted|, |pages|, doc.blocks));
  }
}

module PdfWordProperties {
  import opened Seqs
  import opened Wrappers
  import opened Text
  import opened Fragments
  import opened Images
  import opened Word
  import opened PdfWord

  /** The texts of the level-1 (page) headings, in document order. */
  function PageTitles(blocks: seq<Block>): seq<string>
  {
    if blocks == [] then []
    else
      var b := blocks[|blocks| - 1];
      PageTitles(blocks[..|blocks| - 1]) + (if b.Heading? && b.level == 1 then [b.text] else [])
  }

  /** The number of page breaks. */
  function BreakCount(blocks: seq<Block>): nat
  {
    if blocks == [] then 0
    else BreakCount(blocks[..|blocks| - 1]) + (if blocks[|blocks| - 1].PageBreak? then 1 else 0)
  }

  /** The files of the embedded pictures, in document order. */
  function PicturePaths(blocks: seq<Block>): seq<string>
  {
    if blocks == [] then []
    else
      var b := blocks[|blocks| - 1];
      PicturePaths(blocks[..|blocks| - 1]) + (if b.ImageParagraph? && b.picture.Some? then [b.picture.value] else [])
  }

  /** The paths of the extracted images whose file exists and embeds. */
  function Embedded(imgs: seq<ImageRecord>, onDisk: set<string>, failing: set<string>): seq<string>
  {
    if imgs == [] then []
    else
      var img := imgs[|imgs| - 1];
      Embedded(imgs[..|imgs| - 1], onDisk, failing) +
        (if img.path in onDisk && img.path !in failing then [img.path] else [])
  }

  /** A block that is neither a page heading, a page break nor a picture. */
  predicate Plain(b: Block)
  {
    !(b.Heading? && b.level == 1) && !b.PageBreak? && !(b.ImageParagraph? && b.picture.Some?)
  }

  lemma PageTitlesAppend(a: seq<Block>, b: seq<Block>)
    ensures PageTitles(a + b) == PageTitles(a) + PageTitles(b)
    ensures BreakCount(a + b) == BreakCount(a) + BreakCount(b)
    ensures PicturePaths(a + b) == PicturePaths(a) + PicturePaths(b)
  {
    TitlesAppend(a, b);
    BreaksAppend(a, b);
    PathsAppend(a, b);
  }

  lemma TitlesSnoc(a: seq<Block>, x: Block)
    ensures PageTitles(a + [x]) == PageTitles(a) + (if x.Heading? && x.level == 1 then [x.text] else [])
  {
    SnocParts(a, x);
  }

  lemma {:induction false} TitlesAppend(a: seq<Block>, b: seq<Block>)
    ensures PageTitles(a + b) == PageTitles(a) + PageTitles(b)
    decreases |b|
  {
    if b == [] {
      AppendEmpty(a);
      AppendEmpty(PageTitles(a));
    } else {
      var front, last := b[..|b| - 1], b[|b| - 1];
      TitlesAppend(a, front);
      Assoc(a, front, [last]);
      TitlesSnoc(a + front, last);
      TitlesSnoc(front, last);
      Assoc(PageTitles(a), PageTitles(front), if last.Heading? && last.level == 1 then [last.text] else []);
      SplitLast(b);
    }
  }

  lemma BreaksSnoc(a: seq<Block>, x: Block)
    ensures BreakCount(a + [x]) == BreakCount(a) + (if x.PageBreak? then 1 else 0)
  {
    SnocParts(a, x);
  }

  lemma {:induction false} BreaksAppend(a: seq<Block>, b: seq<Block>)
    ensures BreakCount(a + b) == BreakCount(a) + BreakCount(b)
    decreases |b|
  {
    if b == [] {
      AppendEmpty(a);
    } else {
      var front, last := b[..|b| - 1], b[|b| - 1];
      BreaksAppend(a, front);
      Assoc(a, front, [last]);
      BreaksSnoc(a + front, last);
      BreaksSnoc(front, last);
      SplitLast(b);
    }
  }

  lemma PathsSnoc(a: seq<Block>, x: Block)
    ensures PicturePaths(a + [x]) == PicturePaths(a) + (if x.ImageParagraph? && x.picture.Some? then [x.picture.value] else [])
  {
    SnocParts(a, x);
  }

  lemma {:induction false} PathsAppend(a: seq<Block>, b: seq<Block>)
    ensures PicturePaths(a + b) == PicturePaths(a) + PicturePaths(b)
    decreases |b|
  {
    if b == [] {
      AppendEmpty(a);
      AppendEmpty(PicturePaths(a));
    } else {
      var front, last := b[..|b| - 1], b[|b| - 1];
      PathsAppend(a, front);
      Assoc(a, front, [last]);
      PathsSnoc(a + front, last);
      PathsSnoc(front, last);
      Assoc(PicturePaths(a), PicturePaths(front),
            if last.ImageParagraph? && last.picture.Some? then [last.picture.value] else []);
      SplitLast(b);
    }
  }

  lemma {:induction false} PlainBlocks(blocks: seq<Block>)
    requires forall i :: 0 <= i < |blocks| ==> Plain(blocks[i])
    ensures PageTitles(blocks) == [] && BreakCount(blocks) == 0 && PicturePaths(blocks) == []
  {
    if blocks != [] {
      PlainBlocks(blocks[..|blocks| - 1]);
    }
  }

  lemma {:induction false} ReplayPlain(acts: seq<Action>, frs: seq<Fragment>, k: nat)
    requires |acts| == |frs| && k <= |frs|
    requires forall j :: 0 <= j < |acts| && acts[j].AddHeadingAction? ==> acts[j].level != 1
    ensures forall i :: 0 <= i < |Replay(acts, frs, k).blocks| ==> Plain(Replay(acts, frs, k).blocks[i])
  {
    if k > 0 {
      ReplayPlain(acts, frs, k - 1);
      var s := Replay(acts, frs, k - 1);
      var t := Replay(acts, frs, k);
      if acts[k - 1].AddRunAction? && s.open && s.blocks != [] && s.blocks[|s.blocks| - 1].Paragraph? {
        assert forall i :: 0 <= i < |s.blocks| - 1 ==> t.blocks[i] == s.blocks[i];
      } else if !acts[k - 1].Skip? {
        assert forall i :: 0 <= i < |s.blocks| ==> t.blocks[i] == s.blocks[i];
      }
    }
  }

  /** The text of a page adds only headings of level 2 or 3 and paragraphs. */
  lemma TextBlocksPlain(frs: seq<Fragment>)
    ensures forall i :: 0 <= i < |TextBlocks(frs)| ==> Plain(TextBlocks(frs)[i])
  {
    if frs != [] {
      var st := StatsOfPage(frs);
      var acts := ActionsOf(frs, st);
      ActionsOfLevels(frs, st);
      ReplayPlain(acts, frs, |frs|);
    }
  }

  lemma OneImageShape(img: ImageRecord, onDisk: set<string>, failing: set<string>)
    ensures var one := ImageBlocks(img, onDisk, failing);
      PageTitles(one) == [] && BreakCount(one) == 0 &&
      PicturePaths(one) == (if img.path in onDisk && img.path !in failing then [img.path] else [])
  {
    var one := ImageBlocks(img, onDisk, failing);
    if |one| == 1 {
      assert one[..0] == [];
    } else {
      assert one[..1] == [one[0]];
      assert [one[0]][..0] == [];
      assert PageTitles([one[0]]) == [];
      assert BreakCount([one[0]]) == BreakCount([]) + (if one[0].PageBreak? then 1 else 0);
      assert PicturePaths([one[0]]) == if one[0].picture.Some? then [img.path] else [];
    }
  }

  lemma {:induction false} ImagesBlocksShape(imgs: seq<ImageRecord>, onDisk: set<string>, failing: set<string>)
    ensures PageTitles(ImagesBlocks(imgs, onDisk, failing)) == []
    ensures BreakCount(ImagesBlocks(imgs, onDisk, failing)) == 0
    ensures PicturePaths(ImagesBlocks(imgs, onDisk, failing)) == Embedded(imgs, onDisk, failing)
  {
    if imgs != [] {
      var k := |imgs| - 1;
      ImagesBlocksShape(imgs[..k], onDisk, failing);
      OneImageShape(imgs[k], onDisk, failing);
      PageTitlesAppend(ImagesBlocks(imgs[..k], onDisk, failing), ImageBlocks(imgs[k], onDisk, failing));
    }
  }

  lemma PageBlocksShape(page: PdfPage, k: nat, directory: string, base: string,
                        onDisk: set<string>, failing: set<string>)
    ensures var b := PageBlocks(page, k, directory, base, onDisk, failing);
      PageTitles(b) == [PageTitle(k)] &&
      BreakCount(b) == (if k > 0 then 1 else 0) &&
      PicturePaths(b) == Embedded(PageImages(page.images, k, ImagesDir(directory, base), base), onDisk, failing)
  {
    var frs := PageFragments(page.spans, k);
    var t := TextBlocks(frs);
    var imgs := PageImages(page.images, k, ImagesDir(directory, base), base);
    var i := ImagesBlocks(imgs, onDisk, failing);
    TextBlocksPlain(frs);
    PlainBlocks(t);
    ImagesBlocksShape(imgs, onDisk, failing);
    HeadTextImages(k, t, i, Embedded(imgs, onDisk, failing));
    assert PageBlocks(page, k, directory, base, onDisk, failing) == PageHead(k) + t + i;
  }

  /** A page head followed by plain text blocks and by image blocks. */
  lemma HeadTextImages(k: nat, t: seq<Block>, i: seq<Block>, paths: seq<string>)
    requires PageTitles(t) == [] && BreakCount(t) == 0 && PicturePaths(t) == []
    requires PageTitles(i) == [] && BreakCount(i) == 0 && PicturePaths(i) == paths
    ensures var b := PageHead(k) + t + i;
      PageTitles(b) == [PageTitle(k)] && BreakCount(b) == (if k > 0 then 1 else 0) && PicturePaths(b) == paths
  {
    var h := PageHead(k);
    PageHeadShape(k);
    PageTitlesAppend(h, t);
    PageTitlesAppend(h + t, i);
    AppendEmpty([PageTitle(k)]);
    AppendEmpty(paths);
  }

  lemma PageHeadShape(k: nat)
    ensures var h := PageHead(k);
      PageTitles(h) == [PageTitle(k)] && BreakCount(h) == (if k > 0 then 1 else 0) && PicturePaths(h) == []
  {
    var title := Heading(1, PageTitle(k));
    if k > 0 {
      SnocParts([], PageBreak);
      SnocParts([PageBreak], title);
      assert PageHead(k) == [PageBreak] + [title];
    } else {
      SnocParts([], title);
      assert PageHead(k) == [] + [title];
    }
  }

  lemma {:induction false} EmbeddedAppend(a: seq<ImageRecord>, b: seq<ImageRecord>, onDisk: set<string>, failing: set<string>)
    ensures Embedded(a + b, onDisk, failing) == Embedded(a, onDisk, failing) + Embedded(b, onDisk, failing)
    decreases |b|
  {
    if b == [] {
      AppendEmpty(a);
      AppendEmpty(Embedded(a, onDisk, failing));
    } else {
      var front, last := b[..|b| - 1], b[|b| - 1];
      EmbeddedAppend(a, front, onDisk, failing);
      Assoc(a, front, [last]);
      EmbeddedSnoc(a + front, last, onDisk, failing);
      EmbeddedSnoc(front, last, onDisk, failing);
      Assoc(Embedded(a, onDisk, failing), Embedded(front, onDisk, failing),
            if last.path in onDisk && last.path !in failing then [last.path] else []);
      SplitLast(b);
    }
  }

  lemma EmbeddedSnoc(a: seq<ImageRecord>, img: ImageRecord, onDisk: set<string>, failing: set<string>)
    ensures Embedded(a + [img], onDisk, failing) ==
      Embedded(a, onDisk, failing) + (if img.path in onDisk && img.path !in failing then [img.path] else [])
  {
    SnocParts(a, img);
  }

  /** The headings of the first `n` pages: "第 1 页", "第 2 页", ... */
  function TitlesUpTo(n: nat): (r: seq<string>)
    ensures |r| == n && forall k :: 0 <= k < n ==> r[k] == PageTitle(k)
  {
    if n == 0 then [] else TitlesUpTo(n - 1) + [PageTitle(n - 1)]
  }

  /**
   * The shape of the Word document: the title heading first, then one page
   * heading per page in page order, a page break between consecutive pages
   * and none elsewhere, and exactly the extracted images whose files exist
   * and embed, in extraction order, as pictures.
   */
  lemma {:induction false} DocumentShape(pages: seq<PdfPage>, n: nat, directory: string, base: string,
                                         onDisk: set<string>, failing: set<string>)
    requires n <= |pages|
    ensures var d := DocumentBlocks(pages, n, directory, base, onDisk, failing);
      d != [] && d[0] == Heading(0, base) &&
      PageTitles(d) == TitlesUpTo(n) &&
      BreakCount(d) == (if n == 0 then 0 else n - 1) &&
      PicturePaths(d) == Embedded(AllImages(pages, n, directory, base), onDisk, failing)
  {
    if n == 0 {
      SnocParts([], Heading(0, base));
      assert DocumentBlocks(pages, n, directory, base, onDisk, failing) == [] + [Heading(0, base)];
    } else {
      DocumentShape(pages, n - 1, directory, base, onDisk, failing);
      var prev := DocumentBlocks(pages, n - 1, directory, base, onDisk, failing);
      var pb := PageBlocks(pages[n - 1], n - 1, directory, base, onDisk, failing);
      PageBlocksShape(pages[n - 1], n - 1, directory, base, onDisk, failing);
      var before := AllImages(pages, n - 1, directory, base);
      var these := PageImages(pages[n - 1].images, n - 1, ImagesDir(directory, base), base);
      EmbeddedAppend(before, these, onDisk, failing);
      DocumentStep(prev, pb, n, base, Embedded(before, onDisk, failing), Embedded(these, onDisk, failing));
      assert DocumentBlocks(pages, n, directory, base, onDisk, failing) == prev + pb;
      assert AllImages(pages, n, directory, base) == before + these;
    }
  }

  /** Appending one page's blocks to the document so far. */
  lemma DocumentStep(prev: seq<Block>, pb: seq<Block>, n: nat, base: string, before: seq<string>, these: seq<string>)
    requires n >= 1
    requires prev != [] && prev[0] == Heading(0, base)
    requires PageTitles(prev) == TitlesUpTo(n - 1)
    requires BreakCount(prev) == (if n == 1 then 0 else n - 2)
    requires PicturePaths(prev) == before
    requires PageTitles(pb) == [PageTitle(n - 1)] && BreakCount(pb) == (if n > 1 then 1 else 0)
    requires PicturePaths(pb) == these
    ensures var d := prev + pb;
      d != [] && d[0] == Heading(0, base) &&
      PageTitles(d) == TitlesUpTo(n) &&
      BreakCount(d) == n - 1 &&
      PicturePaths(d) == before + these
  {
    PageTitlesAppend(prev, pb);
    assert (prev + pb)[0] == prev[0];
  }

  /** Page headings name distinct pages. */
  lemma PageTitleInjective(j: nat, k: nat)
    requires PageTitle(j) == PageTitle(k)
    ensures j == k
  {
    var a, b := NatToString(j + 1), NatToString(k + 1);
    assert PageTitle(j) == "第 " + a + " 页";
    assert |a| == |b|;
    assert a == PageTitle(j)[2..2 + |a|];
    NatToStringInjective(j + 1, k + 1);
  }

  /** The three error checks of `pdf_to_word`, in order, and nothing else fails. */
  lemma ConversionErrors(docxAvailable: bool, pdfExists: bool, pdfPath: string, directory: string,
                         base: string, pages: seq<PdfPage>, outputPath: Option<string>,
                         onDisk: set<string>, failing: set<string>)
    ensures var r := WordConversionOf(docxAvailable, pdfExists, pdfPath, directory, base, pages, outputPath, onDisk, failing);
      (r.Success? <==> docxAvailable && pdfExists && pages != []) &&
      (!docxAvailable ==> r.Failure? && r.message == "python-docx library is not available. Please install it to use Word conversion feature.") &&
      (docxAvailable && !pdfExists ==> r.Failure? && r.message == "文件不存在: " + pdfPath) &&
      (docxAvailable && pdfExists && pages == [] ==> r.Failure? && r.message == "PDF文件为空")
  {
  }

  /**
   * A successful `pdf_to_word`: one page heading per page in order, one break
   * between consecutive pages, the embedded pictures of all extracted images,
   * the count of extracted images and pages, and the output path.
   */
  lemma ConversionSuccess(pdfPath: string, directory: string, base: string, pages: seq<PdfPage>,
                          outputPath: Option<string>, onDisk: set<string>, failing: set<string>)
    requires pages != []
    ensures var r := WordConversionOf(true, true, pdfPath, directory, base, pages, outputPath, onDisk, failing);
      var all := AllImages(pages, |pages|, directory, base);
      r.Success? && r.value.pagesCount == |pages| && r.value.imagesCount == |all| &&
      r.value.document != [] && r.value.document[0] == Heading(0, base) &&
      PageTitles(r.value.document) == TitlesUpTo(|pages|) &&
      BreakCount(r.value.document) == |pages| - 1 &&
      PicturePaths(r.value.document) == Embedded(all, onDisk, failing) &&
      (outputPath.None? ==> r.value.wordPath == JoinPath(directory, base + ".docx")) &&
      (outputPath.Some? ==> r.value.wordPath == outputPath.value)
  {
    var r := WordConversionOf(true, true, pdfPath, directory, base, pages, outputPath, onDisk, failing);
    assert r.value.document == DocumentBlocks(pages, |pages|, directory, base, onDisk, failing);
    DocumentShape(pages, |pages|, directory, base, onDisk, failing);
  }
}
