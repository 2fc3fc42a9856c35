/**
 * The Word path: `add_text_to_word_doc`, which turns one page's text
 * fragments into headings and paragraphs of styled runs, and the page loop of
 * `pdf_to_word`.  The docx document is an appended sequence of blocks owned by
 * a `WordDocument` object; the document library itself is not modelled.
 */
module Word {
  import opened Wrappers
  import opened Seqs
  import opened Text
  import opened Fragments
  import opened XmlText
  import opened Images

  /** A styled run of text: `add_run(text)` with its bold, italic and point size. */
  datatype Run = Run(text: string, bold: bool, italic: bool, size: real)

  /** The blocks the converter appends to the document. */
  datatype Block =
    | Heading(level: nat, text: string)      // add_heading(text, level)
    | Paragraph(runs: seq<Run>)              // add_paragraph() and its runs
    | PageBreak                              // add_page_break()
    | ImageParagraph(picture: Option<string>) // the centred image paragraph, with the picture file once inserted
    | Caption(text: string)                  // the centred 9pt italic caption
    | CenteredText(text: string)             // a centred placeholder paragraph

  /** The docx document being built: the ordered list of its blocks. */
  class WordDocument {
    var blocks: seq<Block>

    /** `Document()`: an empty document. */
    constructor ()
      ensures blocks == []
    {
      blocks := [];
    }

    /** `add_heading(text, level)`. */
    method AddHeading(text: string, level: nat)
      modifies this
      ensures blocks == old(blocks) + [Heading(level, text)]
    {
      blocks := blocks + [Heading(level, text)];
    }

    /** `add_paragraph()`: a new, empty paragraph. */
    method AddParagraph()
      modifies this
      ensures blocks == old(blocks) + [Paragraph([])]
    {
      blocks := blocks + [Paragraph([])];
    }

    /** `current_paragraph.add_run(text)` and its font settings, on the last paragraph. */
    method AddRun(run: Run)
      requires blocks != [] && blocks[|blocks| - 1].Paragraph?
      modifies this
      ensures blocks == old(blocks)[..|old(blocks)| - 1] + [Paragraph(old(blocks)[|old(blocks)| - 1].runs + [run])]
    {
      var k := |blocks| - 1;
      blocks := blocks[..k] + [Paragraph(blocks[k].runs + [run])];
    }

    /** `add_page_break()`. */
    method AddPageBreak()
      modifies this
      ensures blocks == old(blocks) + [PageBreak]
    {
      blocks := blocks + [PageBreak];
    }

    /** `add_paragraph()` centred, for an image. */
    method AddImageParagraph()
      modifies this
      ensures blocks == old(blocks) + [ImageParagraph(None)]
    {
      blocks := blocks + [ImageParagraph(None)];
    }

    /** `run.add_picture(path, width=Inches(6))` in the last image paragraph. */
    method AddPicture(path: string)
      requires blocks != [] && blocks[|blocks| - 1].ImageParagraph?
      modifies this
      ensures blocks == old(blocks)[..|old(blocks)| - 1] + [ImageParagraph(Some(path))]
    {
      blocks := blocks[..|blocks| - 1] + [ImageParagraph(Some(path))];
    }

    /** `add_paragraph(text)` styled as an image caption. */
    method AddCaption(text: string)
      modifies this
      ensures blocks == old(blocks) + [Caption(text)]
    {
      blocks := blocks + [Caption(text)];
    }

    /** `add_paragraph(text)` centred. */
    method AddCenteredText(text: string)
      modifies this
      ensures blocks == old(blocks) + [CenteredText(text)]
    {
      blocks := blocks + [CenteredText(text)];
    }
  }

  /** `max(9, min(font_size, 16))`. */
  function ClampSize(size: real): (r: real)
    ensures 9.0 <= r <= 16.0
    ensures 9.0 <= size <= 16.0 ==> r == size
    ensures size < 9.0 ==> r == 9.0
    ensures size > 16.0 ==> r == 16.0
  {
    var m := if size < 16.0 then size else 16.0;
    if 9.0 > m then 9.0 else m
  }

  /** The statistics of one page's fragments. */
  datatype PageStats = PageStats(avg: real, max: real)

  function StatsOfPage(frs: seq<Fragment>): PageStats
    requires frs != []
  {
    PageStats(Average(Sizes(frs)), Max(Sizes(frs)))
  }

  datatype WordRole = MainHeading | SubHeading | Body

  /** The heading tiers of the Word path: level 2 needs the page maximum, level 3 only the subtitle threshold. */
  function RoleOf(size: real, st: PageStats): (r: WordRole)
    ensures r == MainHeading <==> size >= st.avg * 1.2 && size == st.max
    ensures r == SubHeading <==> !(size >= st.avg * 1.2 && size == st.max) && size >= st.avg * 1.1
    ensures r == Body <==> !(size >= st.avg * 1.2 && size == st.max) && !(size >= st.avg * 1.1)
  {
    if size >= st.avg * 1.2 && size == st.max then MainHeading
    else if size >= st.avg * 1.1 then SubHeading
    else Body
  }

  /** `clean_text_for_xml(elem["text"]).strip()`. */
  function WordText(e: Fragment): string
  {
    Strip(CleanTextForXml(e.text))
  }

  function RunOf(text: string, e: Fragment): Run
  {
    Run(text, IsBold(e.flags), IsItalic(e.flags), ClampSize(e.size))
  }

  /** The paragraph stays open after fragment `i`: a next fragment exists and is within half a font size. */
  predicate StaysOpen(frs: seq<Fragment>, i: nat)
    requires i < |frs|
  {
    i + 1 < |frs| && !(Abs(frs[i + 1].y0 - frs[i].y0) > frs[i].size * 0.5)
  }

  /** Adds a run to the open paragraph, or to a new one when none is open. */
  function AppendRun(blocks: seq<Block>, open: bool, run: Run): seq<Block>
  {
    if open && blocks != [] && blocks[|blocks| - 1].Paragraph? then
      blocks[..|blocks| - 1] + [Paragraph(blocks[|blocks| - 1].runs + [run])]
    else blocks + [Paragraph([run])]
  }

  /** What one fragment contributes to the document. */
  datatype Action = Skip | AddHeadingAction(level: nat, text: string) | AddRunAction(run: Run)

  /** The branch `add_text_to_word_doc` takes for fragment `e`. */
  function ActionOf(e: Fragment, st: PageStats): Action
  {
    var text := WordText(e);
    if text == [] then Skip
    else
      match RoleOf(e.size, st)
      case MainHeading => AddHeadingAction(2, text)
      case SubHeading => AddHeadingAction(3, text)
      case Body => AddRunAction(RunOf(text, e))
  }

  /** The blocks added so far and whether `current_paragraph` is set. */
  datatype WState = WState(blocks: seq<Block>, open: bool)

  /** Applies one action; `stays` says whether the paragraph stays open after a run. */
  function WordStep(s: WState, a: Action, stays: bool): WState
  {
    match a
    case Skip => s
    case AddHeadingAction(level, text) => WState(s.blocks + [Heading(level, text)], false)
    case AddRunAction(run) => WState(AppendRun(s.blocks, s.open, run), stays)
  }

  /** The branch taken for each fragment, in order. */
  function ActionsOf(frs: seq<Fragment>, st: PageStats): (acts: seq<Action>)
    ensures |acts| == |frs|
  {
    Map(frs, ActionFn(st))
  }

  function ActionFn(st: PageStats): Fragment -> Action
  {
    e => ActionOf(e, st)
  }

  /** The `i`-th action is the branch taken for the `i`-th fragment. */
  lemma ActionsOfIndex(frs: seq<Fragment>, st: PageStats, i: nat)
    requires i < |frs|
    ensures ActionsOf(frs, st)[i] == ActionOf(frs[i], st)
  {
    MapIndex(frs, ActionFn(st), i);
  }

  /** The text path adds headings of levels 2 and 3 only. */
  lemma ActionsOfLevels(frs: seq<Fragment>, st: PageStats)
    ensures forall j :: 0 <= j < |frs| && ActionsOf(frs, st)[j].AddHeadingAction? ==>
      2 <= ActionsOf(frs, st)[j].level <= 3
  {
    forall j | 0 <= j < |frs| && ActionsOf(frs, st)[j].AddHeadingAction?
      ensures 2 <= ActionsOf(frs, st)[j].level <= 3
    {
      ActionsOfIndex(frs, st, j);
    }
  }

  /** The loop state after the first `k` actions, each followed by the paragraph test of its fragment. */
  function Replay(acts: seq<Action>, frs: seq<Fragment>, k: nat): WState
    requires |acts| == |frs| && k <= |frs|
  {
    if k == 0 then WState([], false)
    else WordStep(Replay(acts, frs, k - 1), acts[k - 1], StaysOpen(frs, k - 1))
  }

  /** The blocks `add_text_to_word_doc(word_doc, text_elements)` appends. */
  function TextBlocks(frs: seq<Fragment>): seq<Block>
  {
    if frs == [] then [] else Replay(ActionsOf(frs, StatsOfPage(frs)), frs, |frs|).blocks
  }

  /** `current_paragraph`, when set, is the last block of the document. */
  predicate OpenIsLast(s: WState)
  {
    s.open ==> s.blocks != [] && s.blocks[|s.blocks| - 1].Paragraph?
  }

  /** An open paragraph is always the last block. */
  lemma {:induction false} ReplayOpen(acts: seq<Action>, frs: seq<Fragment>, k: nat)
    requires |acts| == |frs| && k <= |frs|
    ensures OpenIsLast(Replay(acts, frs, k))
  {
    if k > 0 {
      ReplayOpen(acts, frs, k - 1);
      WordStepOpen(Replay(acts, frs, k - 1), acts[k - 1], StaysOpen(frs, k - 1));
    }
  }

  lemma WordStepOpen(s: WState, a: Action, stays: bool)
    requires OpenIsLast(s)
    ensures OpenIsLast(WordStep(s, a, stays))
  {
  }

  /** `add_text_to_word_doc(word_doc, text_elements)`. */
  method AddTextToWordDoc(doc: WordDocument, frs: seq<Fragment>)
    modifies doc
    ensures doc.blocks == old(doc.blocks) + TextBlocks(frs)
  {
    if frs == [] {
      return;
    }
    var st := StatsOfPage(frs);
    WalkPage(doc, frs, st, ActionsOf(frs, st));
  }

  /** The fragment loop of `add_text_to_word_doc`, once `avg_font_size` and `max_font_size` are known. */
  method WalkPage(doc: WordDocument, frs: seq<Fragment>, st: PageStats, ghost acts: seq<Action>)
    requires acts == ActionsOf(frs, st)
    modifies doc
    ensures doc.blocks == old(doc.blocks) + Replay(acts, frs, |frs|).blocks
  {
    ghost var before := doc.blocks;
    ghost var ws := WState([], false);
    var open := false;
    var i := 0;
    while i < |frs|
      invariant 0 <= i <= |frs| && ws == Replay(acts, frs, i)
      invariant doc.blocks == before + ws.blocks && open == ws.open
    {
      ReplayOpen(acts, frs, i);
      var a := ActionAt(frs, i, st, acts);
      open := ApplyAction(doc, a, open, StaysOpen(frs, i), before, ws);
      ws := Replay(acts, frs, i + 1);
      i := i + 1;
    }
  }

  /** The action for fragment `i`. */
  method ActionAt(frs: seq<Fragment>, i: nat, st: PageStats, ghost acts: seq<Action>) returns (a: Action)
    requires i < |frs| && acts == ActionsOf(frs, st)
    ensures a == acts[i]
  {
    ActionsOfIndex(frs, st, i);
    a := FragmentAction(frs[i], st);
  }

  /** The branches of the loop body: which action fragment `e` calls for. */
  method FragmentAction(e: Fragment, st: PageStats) returns (a: Action)
    ensures a == ActionOf(e, st)
  {
    var text := Strip(CleanTextForXml(e.text));
    if text == [] {
      a := Skip;
    } else if e.size >= st.avg * 1.2 && e.size == st.max {
      a := AddHeadingAction(2, text);
    } else if e.size >= st.avg * 1.1 {
      a := AddHeadingAction(3, text);
    } else {
      a := AddRunAction(Run(text, IsBold(e.flags), IsItalic(e.flags), ClampSize(e.size)));
    }
  }

  /** Carries out one action on the document, keeping `current_paragraph` up to date. */
  method ApplyAction(doc: WordDocument, a: Action, open: bool, stays: bool,
                     ghost before: seq<Block>, ghost s: WState) returns (open': bool)
    requires OpenIsLast(s) && doc.blocks == before + s.blocks && open == s.open
    modifies doc
    ensures doc.blocks == before + WordStep(s, a, stays).blocks
    ensures open' == WordStep(s, a, stays).open
  {
    match a {
      case Skip =>
        open' := open;
      case AddHeadingAction(level, text) =>
        doc.AddHeading(text, level);
        open' := false;
      case AddRunAction(run) =>
        AddBodyRun(doc, run, open, before, s);
        open' := stays;
    }
  }

  /** Adds a run to `current_paragraph`, first creating a paragraph when none is open. */
  method AddBodyRun(doc: WordDocument, run: Run, open: bool, ghost before: seq<Block>, ghost s: WState)
    requires OpenIsLast(s) && doc.blocks == before + s.blocks && open == s.open
    modifies doc
    ensures doc.blocks == before + AppendRun(s.blocks, s.open, run)
  {
    if !open {
      doc.AddParagraph();
      assert (before + s.blocks + [Paragraph([])])[..|before + s.blocks|] == before + s.blocks;
      assert [] + [run] == [run];
      doc.AddRun(run);
    } else {
      doc.AddRun(run);
      AppendRunInPlace(before, s.blocks, run);
    }
  }

  /** Extending the last paragraph of a document touches only the new part. */
  lemma AppendRunInPlace(before: seq<Block>, blocks: seq<Block>, run: Run)
    requires blocks != [] && blocks[|blocks| - 1].Paragraph?
    ensures var all := before + blocks;
      all[..|all| - 1] + [Paragraph(all[|all| - 1].runs + [run])] == before + AppendRun(blocks, true, run)
  {
    var all := before + blocks;
    assert all[..|all| - 1] == before + blocks[..|blocks| - 1];
  }
}

module WordProperties {
  import opened Seqs
  import opened Text
  import opened Fragments
  import opened Word

  /** A heading or a run, read off the document without its paragraph grouping. */
  datatype Item = HeadingItem(level: nat, text: string) | RunItem(run: Run)

  function RunItems(runs: seq<Run>): (r: seq<Item>)
    ensures |r| == |runs| && forall j :: 0 <= j < |runs| ==> r[j] == RunItem(runs[j])
  {
    seq(|runs|, j requires 0 <= j < |runs| => RunItem(runs[j]))
  }

  function BlockItems(b: Block): seq<Item>
  {
    match b
    case Heading(level, text) => [HeadingItem(level, text)]
    case Paragraph(runs) => RunItems(runs)
    case _ => []
  }

  function BlockItemSeqs(blocks: seq<Block>): (r: seq<seq<Item>>)
    ensures |r| == |blocks| && forall i :: 0 <= i < |blocks| ==> r[i] == BlockItems(blocks[i])
  {
    seq(|blocks|, i requires 0 <= i < |blocks| => BlockItems(blocks[i]))
  }

  function ConcatItems(xs: seq<seq<Item>>): seq<Item>
  {
    if xs == [] then [] else ConcatItems(xs[..|xs| - 1]) + xs[|xs| - 1]
  }

  /** The headings and runs of a block list, in document order. */
  function Items(blocks: seq<Block>): seq<Item>
  {
    ConcatItems(BlockItemSeqs(blocks))
  }

  /**
   * The reference reading of one fragment: nothing for blank text, otherwise
   * a level-2 heading, a level-3 heading or a run carrying the cleaned text,
   * the fragment's bold and italic bits and its clamped size.
   */
  function FragmentItems(e: Fragment, st: PageStats): seq<Item>
  {
    var text := WordText(e);
    if text == [] then []
    else if e.size >= st.avg * 1.2 && e.size == st.max then [HeadingItem(2, text)]
    else if e.size >= st.avg * 1.1 then [HeadingItem(3, text)]
    else [RunItem(Run(text, IsBold(e.flags), IsItalic(e.flags), ClampSize(e.size)))]
  }

  function PageItems(frs: seq<Fragment>, st: PageStats): seq<Item>
  {
    if frs == [] then [] else PageItems(frs[..|frs| - 1], st) + FragmentItems(frs[|frs| - 1], st)
  }

  function ActionItems(a: Action): seq<Item>
  {
    match a
    case Skip => []
    case AddHeadingAction(level, text) => [HeadingItem(level, text)]
    case AddRunAction(run) => [RunItem(run)]
  }

  function ActionsItems(acts: seq<Action>): seq<Item>
  {
    if acts == [] then [] else ActionsItems(acts[..|acts| - 1]) + ActionItems(acts[|acts| - 1])
  }

  lemma ConcatItemsSnoc(a: seq<seq<Item>>, x: seq<Item>)
    ensures ConcatItems(a + [x]) == ConcatItems(a) + x
  {
    SnocParts(a, x);
  }

  lemma {:induction false} ConcatItemsAppend(a: seq<seq<Item>>, b: seq<seq<Item>>)
    ensures ConcatItems(a + b) == ConcatItems(a) + ConcatItems(b)
    decreases |b|
  {
    if b == [] {
      AppendEmpty(a);
      AppendEmpty(ConcatItems(a));
    } else {
      var front, last := b[..|b| - 1], b[|b| - 1];
      ConcatItemsAppend(a, front);
      Assoc(a, front, [last]);
      ConcatItemsSnoc(a + front, last);
      ConcatItemsSnoc(front, last);
      Assoc(ConcatItems(a), ConcatItems(front), last);
      SplitLast(b);
    }
  }

  lemma ItemsSnoc(blocks: seq<Block>, b: Block)
    ensures Items(blocks + [b]) == Items(blocks) + BlockItems(b)
  {
    assert BlockItemSeqs(blocks + [b]) == BlockItemSeqs(blocks) + [BlockItems(b)];
    ConcatItemsSnoc(BlockItemSeqs(blocks), BlockItems(b));
  }

  /** Adding a run adds exactly that run to the item reading, whichever paragraph it joins. */
  lemma AppendRunItems(blocks: seq<Block>, open: bool, run: Run)
    ensures Items(AppendRun(blocks, open, run)) == Items(blocks) + [RunItem(run)]
  {
    if open && blocks != [] && blocks[|blocks| - 1].Paragraph? {
      var k := |blocks| - 1;
      var runs := blocks[k].runs;
      assert blocks == blocks[..k] + [blocks[k]];
      ItemsSnoc(blocks[..k], blocks[k]);
      ItemsSnoc(blocks[..k], Paragraph(runs + [run]));
      assert RunItems(runs + [run]) == RunItems(runs) + [RunItem(run)];
    } else {
      ItemsSnoc(blocks, Paragraph([run]));
      assert RunItems([run]) == [RunItem(run)];
    }
  }

  lemma WordStepItems(s: WState, a: Action, stays: bool)
    ensures Items(WordStep(s, a, stays).blocks) == Items(s.blocks) + ActionItems(a)
  {
    match a
    case Skip =>
    case AddHeadingAction(level, text) =>
      ItemsSnoc(s.blocks, Heading(level, text));
    case AddRunAction(run) =>
      AppendRunItems(s.blocks, s.open, run);
  }

  lemma {:induction false} ReplayItems(acts: seq<Action>, frs: seq<Fragment>, k: nat)
    requires |acts| == |frs| && k <= |frs|
    ensures Items(Replay(acts, frs, k).blocks) == ActionsItems(acts[..k])
  {
    if k == 0 {
      assert BlockItemSeqs([]) == [];
    } else {
      ReplayItems(acts, frs, k - 1);
      WordStepItems(Replay(acts, frs, k - 1), acts[k - 1], StaysOpen(frs, k - 1));
      assert acts[..k][..k - 1] == acts[..k - 1];
    }
  }

  lemma FragmentActionItems(e: Fragment, st: PageStats)
    ensures ActionItems(ActionOf(e, st)) == FragmentItems(e, st)
  {
    var text := WordText(e);
    if text != [] {
      var role := RoleOf(e.size, st);
      if role == MainHeading {
        assert ActionOf(e, st) == AddHeadingAction(2, text);
      } else if role == SubHeading {
        assert ActionOf(e, st) == AddHeadingAction(3, text);
      } else {
        assert ActionOf(e, st) == AddRunAction(RunOf(text, e));
      }
    }
  }

  lemma {:induction false} ActionsOfItems(frs: seq<Fragment>, st: PageStats)
    ensures ActionsItems(ActionsOf(frs, st)) == PageItems(frs, st)
  {
    if frs != [] {
      var k := |frs| - 1;
      ActionsOfItems(frs[..k], st);
      FragmentActionItems(frs[k], st);
      SnocParts(ActionsOf(frs[..k], st), ActionOf(frs[k], st));
    }
  }

  /**
   * Grouping runs into paragraphs loses and invents nothing: read in order,
   * the headings and runs `add_text_to_word_doc` adds are exactly one item
   * per non-blank fragment, as the page statistics classify it.
   */
  lemma TextBlocksItems(frs: seq<Fragment>)
    ensures frs != [] ==> Items(TextBlocks(frs)) == PageItems(frs, StatsOfPage(frs))
    ensures frs == [] ==> TextBlocks(frs) == []
  {
    if frs != [] {
      var st := StatsOfPage(frs);
      var acts := ActionsOf(frs, st);
      ReplayItems(acts, frs, |frs|);
      TakeAll(acts);
      ActionsOfItems(frs, st);
    }
  }

  /** Every paragraph the page adds holds at least one run. */
  predicate NoEmptyParagraph(blocks: seq<Block>)
  {
    forall i :: 0 <= i < |blocks| && blocks[i].Paragraph? ==> blocks[i].runs != []
  }

  lemma {:induction false} ReplayNoEmptyParagraph(acts: seq<Action>, frs: seq<Fragment>, k: nat)
    requires |acts| == |frs| && k <= |frs|
    ensures NoEmptyParagraph(Replay(acts, frs, k).blocks)
  {
    if k > 0 {
      ReplayNoEmptyParagraph(acts, frs, k - 1);
      var s := Replay(acts, frs, k - 1);
      var t := Replay(acts, frs, k);
      if acts[k - 1].AddRunAction? && s.open && s.blocks != [] && s.blocks[|s.blocks| - 1].Paragraph? {
        assert forall i :: 0 <= i < |s.blocks| - 1 ==> t.blocks[i] == s.blocks[i];
      } else {
        assert forall i :: 0 <= i < |s.blocks| ==> t.blocks[i] == s.blocks[i];
      }
    }
  }

  lemma TextBlocksNoEmptyParagraph(frs: seq<Fragment>)
    ensures NoEmptyParagraph(TextBlocks(frs))
  {
    if frs != [] {
      ReplayNoEmptyParagraph(ActionsOf(frs, StatsOfPage(frs)), frs, |frs|);
    }
  }

  /**
   * Two consecutive body runs share a paragraph exactly when the second
   * fragment's y0 is within half the first one's font size; otherwise the
   * second run opens a new paragraph.
   */
  lemma RunJoinsIff(acts: seq<Action>, frs: seq<Fragment>, k: nat)
    requires |acts| == |frs| && k + 1 < |frs|
    requires acts[k].AddRunAction? && acts[k + 1].AddRunAction?
    ensures var b1, b2 := Replay(acts, frs, k + 1).blocks, Replay(acts, frs, k + 2).blocks;
      b1 != [] && b1[|b1| - 1].Paragraph? &&
      (StaysOpen(frs, k) ==> b2 == b1[..|b1| - 1] + [Paragraph(b1[|b1| - 1].runs + [acts[k + 1].run])]) &&
      (!StaysOpen(frs, k) ==> b2 == b1 + [Paragraph([acts[k + 1].run])])
  {
  }

  /** A run right after a heading always starts a new paragraph. */
  lemma HeadingThenRunOpensParagraph(acts: seq<Action>, frs: seq<Fragment>, k: nat)
    requires |acts| == |frs| && k + 1 < |frs|
    requires acts[k].AddHeadingAction? && acts[k + 1].AddRunAction?
    ensures var b1, b2 := Replay(acts, frs, k + 1).blocks, Replay(acts, frs, k + 2).blocks;
      b1 != [] && b1[|b1| - 1] == Heading(acts[k].level, acts[k].text) &&
      b2 == b1 + [Paragraph([acts[k + 1].run])]
  {
  }

  lemma {:induction false} ReplayOnlyParagraphs(acts: seq<Action>, frs: seq<Fragment>, k: nat)
    requires |acts| == |frs| && k <= |frs|
    requires forall j :: 0 <= j < |acts| ==> !acts[j].AddHeadingAction?
    ensures forall i :: 0 <= i < |Replay(acts, frs, k).blocks| ==> Replay(acts, frs, k).blocks[i].Paragraph?
  {
    if k > 0 {
      ReplayOnlyParagraphs(acts, frs, k - 1);
      var s := Replay(acts, frs, k - 1);
      var t := Replay(acts, frs, k);
      if acts[k - 1].AddRunAction? && s.open && s.blocks != [] && s.blocks[|s.blocks| - 1].Paragraph? {
        assert forall i :: 0 <= i < |s.blocks| - 1 ==> t.blocks[i] == s.blocks[i];
      } else if acts[k - 1].AddRunAction? {
        assert forall i :: 0 <= i < |s.blocks| ==> t.blocks[i] == s.blocks[i];
      }
    }
  }

  /** On a page whose fragments all have the same positive size, the Word path adds no heading. */
  lemma UniformPageHasNoHeadings(frs: seq<Fragment>, x: real)
    requires frs != [] && x > 0.0
    requires forall k :: 0 <= k < |frs| ==> frs[k].size == x
    ensures forall i :: 0 <= i < |TextBlocks(frs)| ==> TextBlocks(frs)[i].Paragraph?
  {
    var st := StatsOfPage(frs);
    AverageOfConstant(Sizes(frs), x);
    assert st.max == x;
    var acts := ActionsOf(frs, st);
    forall j | 0 <= j < |acts|
      ensures !acts[j].AddHeadingAction?
    {
      ActionsOfIndex(frs, st, j);
      assert RoleOf(frs[j].size, st) == Body;
    }
    ReplayOnlyParagraphs(acts, frs, |frs|);
  }
}
