/**
 * String helpers with Python's semantics where the converter relies on them:
 * `str.strip()`, the `\s` character class, `" ".join(...)`, `str(int)` and
 * `f"{n:03d}"`.  Strings are sequences of Unicode scalar values.
 */
module Text {

  /** Python's `str.isspace()`, which is also what `\s` and `strip()` use on `str`. */
  predicate IsSpace(c: char)
  {
    || ('\U{9}' <= c <= '\U{D}') || ('\U{1C}' <= c <= '\U{20}')
    || c == '\U{85}' || c == '\U{A0}' || c == '\U{1680}'
    || ('\U{2000}' <= c <= '\U{200A}') || c == '\U{2028}' || c == '\U{2029}'
    || c == '\U{202F}' || c == '\U{205F}' || c == '\U{3000}'
  }

  /** ASCII decimal digit (the model's reading of `\d`). */
  predicate IsDigit(c: char)
  {
    '0' <= c <= '9'
  }

  /** Length of the leading run of decimal digits. */
  function LeadingDigits(s: string): (n: nat)
    ensures n <= |s| && AllDigits(s[..n]) && (n < |s| ==> !IsDigit(s[n]))
  {
    if s != [] && IsDigit(s[0]) then
      var n := 1 + LeadingDigits(s[1..]);
      assert s[..n] == [s[0]] + s[1..][..n - 1];
      n
    else 0
  }

  /** `re.match(r'^[\d]+\.', s)`: one or more digits, then a dot. */
  predicate IsNumbered(s: string)
  {
    var n := LeadingDigits(s);
    1 <= n < |s| && s[n] == '.'
  }

  predicate AllSpace(s: string)
  {
    forall i :: 0 <= i < |s| ==> IsSpace(s[i])
  }

  predicate AllDigits(s: string)
  {
    forall i :: 0 <= i < |s| ==> IsDigit(s[i])
  }

  predicate StartsWith(s: string, prefix: string)
  {
    |prefix| <= |s| && s[..|prefix|] == prefix
  }

  predicate EndsWith(s: string, suffix: string)
  {
    |suffix| <= |s| && s[|s| - |suffix|..] == suffix
  }

  /** Python's `str.lstrip()`: drops the leading run of whitespace. */
  function LStrip(s: string): (r: string)
    ensures |r| <= |s| && r == s[|s| - |r|..]
    ensures r == [] || !IsSpace(r[0])
    ensures AllSpace(s[..|s| - |r|])
    decreases |s|
  {
    if s != [] && IsSpace(s[0]) then LStrip(s[1..]) else s
  }

  /** Python's `str.rstrip()`: drops the trailing run of whitespace. */
  function RStrip(s: string): (r: string)
    ensures |r| <= |s| && r == s[..|r|]
    ensures r == [] || !IsSpace(r[|r| - 1])
    ensures AllSpace(s[|r|..])
    decreases |s|
  {
    if s != [] && IsSpace(s[|s| - 1]) then
      var r := RStrip(s[..|s| - 1]);
      assert s[|r|..] == s[..|s| - 1][|r|..] + [s[|s| - 1]];
      r
    else s
  }

  /** Python's `str.strip()`. */
  function Strip(s: string): (r: string)
    ensures r == [] || (!IsSpace(r[0]) && !IsSpace(r[|r| - 1]))
    ensures r == [] <==> AllSpace(s)
    ensures |r| <= |s|
  {
    var l := LStrip(s);
    StripEmpty(s, l);
    RStrip(l)
  }

  lemma StripEmpty(s: string, l: string)
    requires l == LStrip(s)
    ensures RStrip(l) == [] <==> AllSpace(s)
  {
    var k := |s| - |l|;
    assert s == s[..k] + l;
    if RStrip(l) == [] {
      assert AllSpace(l[|RStrip(l)|..]);
      assert l[0..] == l;
      assert s[..|s|] == s;
    } else {
      assert l[0] == s[k] && !IsSpace(l[0]);
    }
  }

  /** `s` contains a character that is not whitespace, i.e. `s.strip()` is truthy. */
  predicate NonBlank(s: string)
  {
    !AllSpace(s)
  }

  /**
   * `re.sub(r'\s+', ' ', s)`: every maximal run of whitespace becomes one
   * ASCII space; every other character is kept in order.
   */
  function CollapseSpaces(s: string): (r: string)
    ensures |r| <= |s|
    ensures r == [] <==> s == []
    ensures s != [] ==> (r[0] == ' ' <==> IsSpace(s[0]))
    ensures s != [] && !IsSpace(s[0]) ==> r[0] == s[0]
    decreases |s|
  {
    if s == [] then []
    else if IsSpace(s[0]) then [' '] + CollapseSpaces(LStrip(s))
    else [s[0]] + CollapseSpaces(s[1..])
  }

  /** After collapsing, every whitespace character left is an ASCII space. */
  lemma {:induction false} CollapseSpacesOnlyAsciiSpace(s: string)
    ensures forall i :: 0 <= i < |CollapseSpaces(s)| && IsSpace(CollapseSpaces(s)[i]) ==>
      CollapseSpaces(s)[i] == ' '
    decreases |s|
  {
    if s != [] {
      var t := if IsSpace(s[0]) then LStrip(s) else s[1..];
      CollapseSpacesOnlyAsciiSpace(t);
    }
  }

  /** After collapsing, no two spaces are adjacent. */
  lemma {:induction false} CollapseSpacesNoDoubleSpace(s: string)
    ensures forall i :: 0 <= i < |CollapseSpaces(s)| - 1 ==>
      !(CollapseSpaces(s)[i] == ' ' && CollapseSpaces(s)[i + 1] == ' ')
    decreases |s|
  {
    if s != [] {
      var t := if IsSpace(s[0]) then LStrip(s) else s[1..];
      CollapseSpacesNoDoubleSpace(t);
      var rest := CollapseSpaces(t);
      var r := CollapseSpaces(s);
      assert r == [r[0]] + rest;
      assert r[0] == ' ' ==> rest == [] || rest[0] != ' ';
      forall i | 0 <= i < |r| - 1 ensures !(r[i] == ' ' && r[i + 1] == ' ') {
        assert r[i + 1] == rest[i];
        if i > 0 {
          assert r[i] == rest[i - 1];
          assert 0 <= i - 1 < |rest| - 1;
        }
      }
    }
  }

  /** Python's `sep.join(parts)`. */
  function Join(parts: seq<string>, sep: string): (r: string)
    ensures parts != [] ==> StartsWith(r, parts[0])
    ensures |parts| == 1 ==> r == parts[0]
  {
    if |parts| == 0 then ""
    else if |parts| == 1 then parts[0]
    else parts[0] + sep + Join(parts[1..], sep)
  }

  /** A joined sequence whose first part is non-blank is non-blank. */
  lemma JoinNonBlank(parts: seq<string>, sep: string)
    requires parts != [] && NonBlank(parts[0])
    ensures NonBlank(Join(parts, sep))
  {
    var r := Join(parts, sep);
    var i :| 0 <= i < |parts[0]| && !IsSpace(parts[0][i]);
    assert r[i] == parts[0][i];
  }

  /** Python's `x in s` for strings, and the JavaScript substring test. */
  predicate Contains(s: string, part: string)
    decreases |s|
  {
    StartsWith(s, part) || (s != [] && Contains(s[1..], part))
  }

  function DigitChar(d: nat): (c: char)
    requires d < 10
    ensures IsDigit(c) && (c as int) - ('0' as int) == d
  {
    (('0' as int) + d) as char
  }

  /** Python's `str(n)` for a non-negative integer. */
  function NatToString(n: nat): (r: string)
    ensures |r| >= 1 && AllDigits(r)
    decreases n
  {
    if n < 10 then [DigitChar(n)] else NatToString(n / 10) + [DigitChar(n % 10)]
  }

  /** The value denoted by a string of decimal digits. */
  function DigitsValue(s: string): nat
    requires AllDigits(s)
  {
    if s == [] then 0 else DigitsValue(s[..|s| - 1]) * 10 + ((s[|s| - 1] as int) - ('0' as int))
  }

  /** Reading the decimal numeral back gives the number. */
  lemma {:induction false} NatToStringRoundTrip(n: nat)
    ensures DigitsValue(NatToString(n)) == n
    decreases n
  {
    var r := NatToString(n);
    if n >= 10 {
      NatToStringRoundTrip(n / 10);
      assert r[..|r| - 1] == NatToString(n / 10);
    }
  }

  lemma NatToStringInjective(m: nat, n: nat)
    requires NatToString(m) == NatToString(n)
    ensures m == n
  {
    NatToStringRoundTrip(m);
    NatToStringRoundTrip(n);
  }

  function Repeat(c: char, n: nat): (r: string)
    ensures |r| == n && forall i :: 0 <= i < n ==> r[i] == c
  {
    if n == 0 then "" else [c] + Repeat(c, n - 1)
  }

  /** Python's `f"{n:0Wd}"` for a non-negative `n`: left-pad with zeros up to `width`. */
  function ZeroPad(n: nat, width: nat): (r: string)
    ensures |r| == if |NatToString(n)| < width then width else |NatToString(n)|
    ensures AllDigits(r) && EndsWith(r, NatToString(n))
    ensures forall i :: 0 <= i < |r| - |NatToString(n)| ==> r[i] == '0'
  {
    var d := NatToString(n);
    if |d| < width then Repeat('0', width - |d|) + d else d
  }

  /** Leading zeros do not change the value of a numeral. */
  lemma {:induction false} DigitsValueLeadingZeros(z: string, d: string)
    requires AllDigits(d) && forall i :: 0 <= i < |z| ==> z[i] == '0'
    ensures AllDigits(z + d) && DigitsValue(z + d) == DigitsValue(d)
    decreases |d|
  {
    if d == [] {
      assert z + d == z;
      AllZerosValue(z);
    } else {
      var w := z + d;
      assert w[..|w| - 1] == z + d[..|d| - 1];
      DigitsValueLeadingZeros(z, d[..|d| - 1]);
    }
  }

  lemma {:induction false} AllZerosValue(z: string)
    requires forall i :: 0 <= i < |z| ==> z[i] == '0'
    ensures AllDigits(z) && DigitsValue(z) == 0
  {
    if z != [] {
      AllZerosValue(z[..|z| - 1]);
    }
  }

  /** The zero-padded numeral still denotes `n`, so padding is injective. */
  lemma ZeroPadValue(n: nat, width: nat)
    ensures DigitsValue(ZeroPad(n, width)) == n
  {
    var d := NatToString(n);
    NatToStringRoundTrip(n);
    if |d| < width {
      DigitsValueLeadingZeros(Repeat('0', width - |d|), d);
    }
  }

  /** ASCII case folding, as JavaScript's case-insensitive matching of ASCII letters. */
  function AsciiLower(c: char): (r: char)
    ensures 'A' <= c <= 'Z' ==> r as int == c as int + 32
    ensures !('A' <= c <= 'Z') ==> r == c
  {
    if 'A' <= c <= 'Z' then ((c as int) + 32) as char else c
  }
}
