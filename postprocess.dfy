/**
 * `post_process_markdown`: blank lines are dropped, an empty separator line is
 * put in front of a list item that follows ordinary text, and runs of empty
 * lines are then squeezed to one.
 */
module PostProcess {
  import opened Text

  /** `re.match(r'^[\d]+\.', line) or line.startswith('- ')`. */
  predicate IsListLine(l: string)
  {
    IsNumbered(l) || StartsWith(l, "- ")
  }

  /** `startswith(('- ', '1.', ..., '0.'))`: a bullet or one digit and a dot. */
  predicate HasListPrefix(l: string)
  {
    StartsWith(l, "- ") || (|l| >= 2 && IsDigit(l[0]) && l[1] == '.')
  }

  /** The separator is inserted before list line `l` when the output so far ends in ordinary text. */
  predicate NeedsSeparator(p: seq<string>, l: string)
  {
    IsListLine(l) && p != [] && !HasListPrefix(p[|p| - 1]) && !StartsWith(p[|p| - 1], "#")
  }

  /** The first loop of `post_process_markdown` (the `processed` list). */
  function Processed(lines: seq<string>): seq<string>
  {
    if lines == [] then []
    else
      var p := Processed(lines[..|lines| - 1]);
      var l := lines[|lines| - 1];
      if !NonBlank(l) then p
      else if NeedsSeparator(p, l) then p + ["", l]
      else p + [l]
  }

  /** The second loop: an empty line right after an empty line is dropped. */
  function Squeezed(p: seq<string>): seq<string>
  {
    if p == [] then []
    else
      var k := |p| - 1;
      Squeezed(p[..k]) + (if p[k] == "" && k > 0 && p[k - 1] == "" then [] else [p[k]])
  }

  /** What `post_process_markdown(lines)` returns. */
  function PostProcessed(lines: seq<string>): seq<string>
  {
    Squeezed(Processed(lines))
  }

  /** `post_process_markdown(lines)`. */
  method PostProcessMarkdown(lines: seq<string>) returns (finalLines: seq<string>)
    ensures finalLines == PostProcessed(lines)
  {
    var processed: seq<string> := [];
    var i := 0;
    while i < |lines|
      invariant 0 <= i <= |lines|
      invariant processed == Processed(lines[..i])
    {
      var line := lines[i];
      assert lines[..i + 1][..i] == lines[..i];
      if NonBlank(line) {
        if IsNumbered(line) || StartsWith(line, "- ") {
          if processed != [] && !HasListPrefix(processed[|processed| - 1]) {
            if !StartsWith(processed[|processed| - 1], "#") {
              processed := processed + [""];
            }
          }
          processed := processed + [line];
        } else {
          processed := processed + [line];
        }
      }
      i := i + 1;
    }
    assert lines[..i] == lines;
    finalLines := [];
    var j := 0;
    while j < |processed|
      invariant 0 <= j <= |processed|
      invariant finalLines == Squeezed(processed[..j])
    {
      assert processed[..j + 1][..j] == processed[..j];
      if !(processed[j] == "" && j > 0 && processed[j - 1] == "") {
        finalLines := finalLines + [processed[j]];
      }
      j := j + 1;
    }
    assert processed[..j] == processed;
  }

  /** The non-blank lines of a sequence, in order. */
  function NonBlankLines(lines: seq<string>): seq<string>
  {
    if lines == [] then []
    else
      var k := |lines| - 1;
      NonBlankLines(lines[..k]) + (if NonBlank(lines[k]) then [lines[k]] else [])
  }

  /** Every line of the output is a kept input line or an inserted empty separator. */
  predicate LinesAreTextOrSeparator(out: seq<string>)
  {
    forall i :: 0 <= i < |out| ==> out[i] == "" || NonBlank(out[i])
  }

  /**
   * An empty line stands only between ordinary text (not a list item, not a
   * heading) and a list line.
   */
  predicate SeparatorsWellPlaced(out: seq<string>)
  {
    forall i :: 0 <= i < |out| && out[i] == "" ==>
      0 < i < |out| - 1 && IsListLine(out[i + 1]) && NonBlank(out[i - 1]) &&
      !HasListPrefix(out[i - 1]) && !StartsWith(out[i - 1], "#")
  }

  /** A list line directly after ordinary text always has a separator in between. */
  predicate ListsSeparated(out: seq<string>)
  {
    forall i :: 0 < i < |out| && IsListLine(out[i]) && out[i - 1] != "" ==>
      HasListPrefix(out[i - 1]) || StartsWith(out[i - 1], "#")
  }

  lemma ProcessedShape(lines: seq<string>)
    ensures LinesAreTextOrSeparator(Processed(lines))
    ensures SeparatorsWellPlaced(Processed(lines))
    ensures ListsSeparated(Processed(lines))
    ensures Processed(lines) != [] ==> NonBlank(Processed(lines)[|Processed(lines)| - 1])
  {
    ProcessedTextOrSeparator(lines);
    ProcessedSeparators(lines);
    ProcessedListsSeparated(lines);
  }

  lemma {:induction false} ProcessedTextOrSeparator(lines: seq<string>)
    ensures LinesAreTextOrSeparator(Processed(lines))
    ensures Processed(lines) != [] ==> NonBlank(Processed(lines)[|Processed(lines)| - 1])
  {
    if lines != [] {
      var pre := lines[..|lines| - 1];
      ProcessedTextOrSeparator(pre);
      var p := Processed(pre);
      var out := Processed(lines);
      assert forall i :: 0 <= i < |p| ==> out[i] == p[i];
    }
  }

  lemma {:induction false} ProcessedSeparators(lines: seq<string>)
    ensures SeparatorsWellPlaced(Processed(lines))
  {
    if lines != [] {
      var pre := lines[..|lines| - 1];
      ProcessedSeparators(pre);
      ProcessedTextOrSeparator(pre);
      var p := Processed(pre);
      var l := lines[|lines| - 1];
      var out := Processed(lines);
      if NonBlank(l) {
        forall i | 0 <= i < |out| && out[i] == ""
          ensures 0 < i < |out| - 1 && IsListLine(out[i + 1]) && NonBlank(out[i - 1]) &&
            !HasListPrefix(out[i - 1]) && !StartsWith(out[i - 1], "#")
        {
          if i < |p| {
            assert out[i] == p[i];
            assert out[i - 1] == p[i - 1];
            assert i + 1 < |p| ==> out[i + 1] == p[i + 1];
            assert !NonBlank("");
          }
        }
      }
    }
  }

  lemma {:induction false} ProcessedListsSeparated(lines: seq<string>)
    ensures ListsSeparated(Processed(lines))
  {
    if lines != [] {
      var pre := lines[..|lines| - 1];
      ProcessedListsSeparated(pre);
      var p := Processed(pre);
      var l := lines[|lines| - 1];
      var out := Processed(lines);
      if NonBlank(l) {
        forall i | 0 < i < |out| && IsListLine(out[i]) && out[i - 1] != ""
          ensures HasListPrefix(out[i - 1]) || StartsWith(out[i - 1], "#")
        {
          if i < |p| {
            assert out[i] == p[i] && out[i - 1] == p[i - 1];
          }
        }
      }
    }
  }

  /** Squeezing changes nothing when no two empty lines are adjacent. */
  lemma {:induction false} SqueezedIdentity(p: seq<string>)
    requires forall i :: 0 < i < |p| && p[i] == "" ==> p[i - 1] != ""
    ensures Squeezed(p) == p
  {
    if p != [] {
      SqueezedIdentity(p[..|p| - 1]);
    }
  }

  /** The squeezing loop never finds anything to drop. */
  lemma PostProcessedIsProcessed(lines: seq<string>)
    ensures PostProcessed(lines) == Processed(lines)
  {
    var p := Processed(lines);
    ProcessedShape(lines);
    forall i | 0 < i < |p| && p[i] == ""
      ensures p[i - 1] != ""
    {
    }
    SqueezedIdentity(p);
  }

  /**
   * The shape of the output: every line is a kept line or an empty separator,
   * separators sit exactly between ordinary text and a following list line,
   * and no list line follows ordinary text without one.
   */
  lemma PostProcessShape(lines: seq<string>)
    ensures LinesAreTextOrSeparator(PostProcessed(lines))
    ensures SeparatorsWellPlaced(PostProcessed(lines))
    ensures ListsSeparated(PostProcessed(lines))
  {
    PostProcessedIsProcessed(lines);
    ProcessedShape(lines);
  }

  /** The non-blank lines come out unchanged, in order, with none lost or added. */
  lemma {:induction false} ProcessedKeepsText(lines: seq<string>)
    ensures NonBlankLines(Processed(lines)) == NonBlankLines(lines)
  {
    if lines != [] {
      var pre := lines[..|lines| - 1];
      ProcessedKeepsText(pre);
      var p := Processed(pre);
      var l := lines[|lines| - 1];
      if NonBlank(l) {
        if NeedsSeparator(p, l) {
          NonBlankLinesAppend(p, ["", l]);
          NonBlankLinesPair(l);
        } else {
          NonBlankLinesAppend(p, [l]);
          assert [l][..0] == [];
        }
      }
    }
  }

  lemma {:induction false} NonBlankLinesAppend(a: seq<string>, b: seq<string>)
    ensures NonBlankLines(a + b) == NonBlankLines(a) + NonBlankLines(b)
  {
    if b != [] {
      var k := |b| - 1;
      assert (a + b)[..|a| + k] == a + b[..k];
      NonBlankLinesAppend(a, b[..k]);
    } else {
      assert a + b == a;
    }
  }

  lemma NonBlankLinesPair(l: string)
    requires NonBlank(l)
    ensures NonBlankLines(["", l]) == [l]
  {
    assert ["", l][..1] == [""];
    assert [""][..0] == [];
    assert !NonBlank("");
  }

  lemma PostProcessKeepsText(lines: seq<string>)
    ensures NonBlankLines(PostProcessed(lines)) == NonBlankLines(lines)
  {
    PostProcessedIsProcessed(lines);
    ProcessedKeepsText(lines);
  }

  /** The first loop sees only the non-blank lines. */
  lemma {:induction false} ProcessedOfNonBlank(lines: seq<string>)
    ensures Processed(lines) == Processed(NonBlankLines(lines))
  {
    if lines != [] {
      var k := |lines| - 1;
      ProcessedOfNonBlank(lines[..k]);
      var n := NonBlankLines(lines[..k]);
      if NonBlank(lines[k]) {
        assert NonBlankLines(lines) == n + [lines[k]];
        assert (n + [lines[k]])[..|n|] == n;
      } else {
        assert NonBlankLines(lines) == n;
      }
    }
  }

  /** Post-processing its own output changes nothing. */
  lemma PostProcessIdempotent(lines: seq<string>)
    ensures PostProcessed(PostProcessed(lines)) == PostProcessed(lines)
  {
    var p := Processed(lines);
    PostProcessedIsProcessed(lines);
    PostProcessedIsProcessed(p);
    ProcessedOfNonBlank(p);
    ProcessedKeepsText(lines);
    ProcessedOfNonBlank(lines);
  }
}
