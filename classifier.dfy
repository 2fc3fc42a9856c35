/**
 * The role classifier of the Markdown path (`format_text_element`): a strict
 * first-match ladder over the font size and the style flag bits, followed by
 * list-marker recognition on the whitespace-collapsed text.  The thresholds
 * are relative to the job's average font size.
 */
module Classifier {
  import opened Text
  import opened Fragments

  /** `avg_font_size * 1.2`. */
  function TitleThreshold(avg: real): real
  {
    avg * 1.2
  }

  /** `avg_font_size * 1.1`. */
  function SubtitleThreshold(avg: real): real
  {
    avg * 1.1
  }

  /** The bullet glyphs of `[•·▪▫‣⁃]`. */
  predicate IsBullet(c: char)
  {
    c == '\U{2022}' || c == '\U{00B7}' || c == '\U{25AA}' || c == '\U{25AB}' || c == '\U{2023}' || c == '\U{2043}'
  }

  /** `re.match(r'^[-*+]\s+', s)`: an existing Markdown list marker. */
  predicate IsMarkupItem(s: string)
  {
    |s| >= 2 && (s[0] == '-' || s[0] == '*' || s[0] == '+') && IsSpace(s[1])
  }

  /** The structural role the ladder assigns to a fragment. */
  datatype Role = Heading(level: nat) | Bold | Italic | NumberedItem | BulletItem | MarkupItem | Plain

  /** 1..4 for headings, 5 for everything else: smaller means more prominent. */
  function Rank(r: Role): nat
  {
    if r.Heading? then r.level else 5
  }

  /** The ladder of `format_text_element`.  `c` is the already collapsed text. */
  function Classify(c: string, size: real, flags: int, title: real, subtitle: real): (role: Role)
    ensures role.Heading? ==> 1 <= role.level <= 4
    ensures role == NumberedItem ==> IsNumbered(c)
    ensures role == BulletItem ==> c != [] && IsBullet(c[0])
    ensures role == MarkupItem ==> IsMarkupItem(c)
  {
    if size >= title then
      if size >= title * 1.3 then Heading(1)
      else if size >= title * 1.1 then Heading(2)
      else Heading(3)
    else if size >= subtitle then Heading(4)
    else if IsBold(flags) then Bold
    else if IsItalic(flags) then Italic
    else if IsNumbered(c) then NumberedItem
    else if c != [] && IsBullet(c[0]) then BulletItem
    else if IsMarkupItem(c) then MarkupItem
    else Plain
  }

  /**
   * Each role of the ladder characterised by its own condition, so that the
   * first-match order is explicit: a role is chosen exactly when its test
   * holds and every earlier test failed.
   */
  lemma ClassifyLadder(c: string, size: real, flags: int, title: real, subtitle: real)
    ensures var role := Classify(c, size, flags, title, subtitle);
      && (role.Heading? <==> size >= title || size >= subtitle)
      && (role == Heading(1) <==> size >= title && size >= title * 1.3)
      && (role == Heading(2) <==> size >= title && !(size >= title * 1.3) && size >= title * 1.1)
      && (role == Heading(3) <==> size >= title && !(size >= title * 1.3) && !(size >= title * 1.1))
      && (role == Heading(4) <==> !(size >= title) && size >= subtitle)
      && (role == Bold <==> !role.Heading? && IsBold(flags))
      && (role == Italic <==> !role.Heading? && !IsBold(flags) && IsItalic(flags))
      && (role == NumberedItem <==> !role.Heading? && !IsBold(flags) && !IsItalic(flags) && IsNumbered(c))
      && (role == BulletItem <==>
            !role.Heading? && !IsBold(flags) && !IsItalic(flags) && !IsNumbered(c) && c != [] && IsBullet(c[0]))
      && (role == MarkupItem <==>
            !role.Heading? && !IsBold(flags) && !IsItalic(flags) && !IsNumbered(c) &&
            !(c != [] && IsBullet(c[0])) && IsMarkupItem(c))
  {
  }

  /** `re.sub(r'\s+', ' ', text.strip())`. */
  function Cleaned(text: string): string
  {
    CollapseSpaces(Strip(text))
  }

  /** The Markdown token for a role and its collapsed text. */
  function Render(role: Role, c: string): string
    requires role == BulletItem ==> c != []
  {
    match role
    case Heading(level) => Repeat('#', level) + " " + c
    case Bold => "**" + c + "**"
    case Italic => "*" + c + "*"
    case BulletItem => "- " + LStrip(c[1..])
    case _ => c
  }

  /** The assembler's test `formatted_text.startswith('#')`. */
  predicate IsHeadingToken(t: string)
  {
    t != [] && t[0] == '#'
  }

  /**
   * `format_text_element(text, font_size, font_flags, title_threshold,
   * subtitle_threshold, avg_font_size)`: the token for one fragment.
   */
  function FormatTextElement(text: string, size: real, flags: int, title: real, subtitle: real, avg: real): string
  {
    var c := Cleaned(text);
    Render(Classify(c, size, flags, title, subtitle), c)
  }

  /**
   * The token keeps the collapsed text whole: a heading is `level` hashes and a
   * space before it, bold and italic wrap it, a bullet glyph and the blank
   * after it become `- `, and every other role returns it unchanged.
   */
  lemma FormatTokenShape(text: string, size: real, flags: int, title: real, subtitle: real, avg: real)
    ensures var c := Cleaned(text);
      var role := Classify(c, size, flags, title, subtitle);
      var r := FormatTextElement(text, size, flags, title, subtitle, avg);
      && (role.Heading? ==> r == Repeat('#', role.level) + " " + c)
      && (role == Bold ==> r == "**" + c + "**")
      && (role == Italic ==> r == "*" + c + "*")
      && (role == BulletItem ==> c != [] && r == "- " + LStrip(c[1..]))
      && (role in {NumberedItem, MarkupItem, Plain} ==> r == c)
  {
    var c := Cleaned(text);
    RenderShape(Classify(c, size, flags, title, subtitle), c);
  }

  /** The token of each role, for any collapsed text the role admits. */
  lemma RenderShape(role: Role, c: string)
    requires role == BulletItem ==> c != []
    ensures var r := Render(role, c);
      && (role.Heading? ==> r == Repeat('#', role.level) + " " + c)
      && (role == Bold ==> r == "**" + c + "**")
      && (role == Italic ==> r == "*" + c + "*")
      && (role == BulletItem ==> r == "- " + LStrip(c[1..]))
      && (role in {NumberedItem, MarkupItem, Plain} ==> r == c)
  {
  }

  /**
   * A token counts as a heading for the assembler exactly when the ladder
   * chose a heading, or when unmarked text itself begins with `#`.
   */
  lemma HeadingTokenIff(text: string, size: real, flags: int, title: real, subtitle: real, avg: real)
    ensures var role := Classify(Cleaned(text), size, flags, title, subtitle);
      IsHeadingToken(FormatTextElement(text, size, flags, title, subtitle, avg)) <==>
        role.Heading? || (role == Plain && IsHeadingToken(Cleaned(text)))
  {
    var c := Cleaned(text);
    var role := Classify(c, size, flags, title, subtitle);
    RenderHeadingIff(role, c);
    assert FormatTextElement(text, size, flags, title, subtitle, avg) == Render(role, c);
  }

  /** Only a heading role, or plain text already starting with `#`, renders as a `#` token. */
  lemma RenderHeadingIff(role: Role, c: string)
    requires role.Heading? ==> role.level >= 1
    requires role == NumberedItem ==> IsNumbered(c)
    requires role == BulletItem ==> c != [] && IsBullet(c[0])
    requires role == MarkupItem ==> IsMarkupItem(c)
    ensures IsHeadingToken(Render(role, c)) <==> role.Heading? || (role == Plain && IsHeadingToken(c))
  {
    if role == NumberedItem {
      assert IsDigit(c[0]);
    }
  }

  /** A fragment whose text is not blank yields a token that is not blank. */
  lemma FormatNonBlank(text: string, size: real, flags: int, title: real, subtitle: real, avg: real)
    requires NonBlank(text)
    ensures NonBlank(FormatTextElement(text, size, flags, title, subtitle, avg))
  {
    var s := Strip(text);
    var c := Cleaned(text);
    assert s != [] && !IsSpace(s[0]);
    assert c[0] == s[0];
    RenderStartsVisible(Classify(c, size, flags, title, subtitle), c);
  }

  /** Every role's token starts with a visible character when its text does. */
  lemma RenderStartsVisible(role: Role, c: string)
    requires c != [] && !IsSpace(c[0])
    requires role.Heading? ==> role.level >= 1
    ensures var r := Render(role, c); r != [] && !IsSpace(r[0])
  {
  }

  /**
   * Threshold monotonicity: with the job's thresholds, a larger font never
   * gets a less prominent heading level than a smaller one.
   */
  lemma RankMonotone(a: string, b: string, sizeA: real, sizeB: real, flagsA: int, flagsB: int, avg: real)
    requires sizeA >= sizeB
    ensures Rank(Classify(a, sizeA, flagsA, TitleThreshold(avg), SubtitleThreshold(avg))) <=
            Rank(Classify(b, sizeB, flagsB, TitleThreshold(avg), SubtitleThreshold(avg)))
  {
  }

  /** A fragment at exactly the average size is never a heading when sizes are positive. */
  lemma AverageSizeIsNotHeading(c: string, flags: int, avg: real)
    requires avg > 0.0
    ensures !Classify(c, avg, flags, TitleThreshold(avg), SubtitleThreshold(avg)).Heading?
  {
  }
}
