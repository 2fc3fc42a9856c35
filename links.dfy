/**
 * `processImageLinksForLocal` in the web front end: a global replace of the
 * pattern `!\[([^\]]*)\]\(([^)]+)\)`.  JavaScript tries the pattern at each
 * position from left to right; at a match it emits the replacement and
 * resumes after the match, otherwise it copies one character and moves on.
 * Both character classes are negated, so they also match newlines, and a
 * greedy run of "anything but X" followed by X can only end at the first X:
 * the match attempt never needs to backtrack.
 */
module Links {
  import opened Wrappers
  import opened Text

  /** The API path that marks a link as served by the back end. */
  const ApiMarker: string := "/api/images/"

  /** A match: the alt text, the target, and the length of the matched text. */
  datatype LinkMatch = LinkMatch(alt: string, target: string, len: nat)

  /** The first index at or after `k` that holds `c`, or `|s|` when there is none. */
  function FirstIndex(s: string, k: nat, c: char): (r: nat)
    requires k <= |s|
    ensures k <= r <= |s|
    ensures r < |s| ==> s[r] == c
    ensures forall i :: k <= i < r ==> s[i] != c
    decreases |s| - k
  {
    if k == |s| || s[k] == c then k else FirstIndex(s, k + 1, c)
  }

  /** The text `![alt](target)`. */
  function LinkText(alt: string, target: string): string
  {
    "![" + alt + "](" + target + ")"
  }

  /** The pattern's own constraints on its two groups. */
  predicate WellFormed(alt: string, target: string)
  {
    && (forall i :: 0 <= i < |alt| ==> alt[i] != ']')
    && target != []
    && (forall i :: 0 <= i < |target| ==> target[i] != ')')
  }

  /** The attempt to match the pattern at the start of `s`. */
  function MatchAt(s: string): (r: Option<LinkMatch>)
    ensures r.Some? ==>
      && 5 <= r.value.len <= |s|
      && WellFormed(r.value.alt, r.value.target)
      && r.value.len == |LinkText(r.value.alt, r.value.target)|
  {
    if |s| < 2 || s[0] != '!' || s[1] != '[' then None
    else
      var a := FirstIndex(s, 2, ']');
      if a + 1 >= |s| || s[a + 1] != '(' then None
      else
        var t := FirstIndex(s, a + 2, ')');
        if t == |s| || t == a + 2 then None
        else
          Some(LinkMatch(s[2..a], s[a + 2..t], t + 1))
  }

  /** `imagePath.split("/").pop()`: the text after the last `/`, or all of it. */
  function LastSegment(t: string): (r: string)
    ensures EndsWith(t, r)
    ensures forall i :: 0 <= i < |r| ==> r[i] != '/'
    ensures |r| < |t| ==> t[|t| - |r| - 1] == '/'
  {
    if t == [] then ""
    else if t[|t| - 1] == '/' then ""
    else
      var r := LastSegment(t[..|t| - 1]) + [t[|t| - 1]];
      assert t[|t| - |r|..] == t[..|t| - 1][|t| - |r|..] + [t[|t| - 1]];
      r
  }

  /** What the callback returns for a match found at the start of `s`. */
  function Replacement(s: string, m: LinkMatch): string
    requires m.len <= |s|
  {
    if Contains(m.target, ApiMarker) then LinkText(m.alt, LastSegment(m.target)) else s[..m.len]
  }

  /** `markdownText.replace(/!\[([^\]]*)\]\(([^)]+)\)/g, ...)`. */
  function Rewrite(s: string): string
    decreases |s|
  {
    if s == [] then ""
    else
      match MatchAt(s)
      case Some(m) => Replacement(s, m) + Rewrite(s[m.len..])
      case None => [s[0]] + Rewrite(s[1..])
  }
}

/** What the link rewriter guarantees. */
module LinkProperties {
  import opened Seqs
  import opened Wrappers
  import opened Text
  import opened Links

  /** A match covers exactly the text of the link it reports. */
  lemma MatchAtText(s: string)
    requires MatchAt(s).Some?
    ensures s[..MatchAt(s).value.len] == LinkText(MatchAt(s).value.alt, MatchAt(s).value.target)
  {
    var a := FirstIndex(s, 2, ']');
    var t := FirstIndex(s, a + 2, ')');
    assert s[..t + 1] == LinkText(s[2..a], s[a + 2..t]);
  }

  /** `FirstIndex` is the only index with its three properties. */
  lemma FirstIndexIs(s: string, k: nat, c: char, r: nat)
    requires k <= r <= |s|
    requires r < |s| ==> s[r] == c
    requires forall i :: k <= i < r ==> s[i] != c
    ensures FirstIndex(s, k, c) == r
  {
  }

  /** Every link the pattern describes is found, with its own alt text and target. */
  lemma MatchAtComplete(alt: string, target: string, rest: string)
    requires WellFormed(alt, target)
    ensures MatchAt(LinkText(alt, target) + rest) == Some(LinkMatch(alt, target, |LinkText(alt, target)|))
  {
    var s := LinkText(alt, target) + rest;
    var a := |alt| + 2;
    assert forall i :: 2 <= i < a ==> s[i] == alt[i - 2];
    FirstIndexIs(s, 2, ']', a);
    var t := a + 2 + |target|;
    assert forall i :: a + 2 <= i < t ==> s[i] == target[i - a - 2];
    FirstIndexIs(s, a + 2, ')', t);
    assert s[2..a] == alt;
    assert s[a + 2..t] == target;
  }

  /** A match at position `j` of `s`, in terms of the indices of `s`. */
  lemma MatchAtIn(s: string, j: nat)
    requires j <= |s|
    ensures MatchAt(s[j..]).Some? ==>
      var m := MatchAt(s[j..]).value;
      var p := j + |m.alt| + 2;
      var q := j + m.len - 1;
      && s[j] == '!' && s[j + 1] == '['
      && j + 2 <= p && p + 2 < q < |s|
      && s[p] == ']' && s[p + 1] == '(' && s[q] == ')'
      && (forall i :: j + 2 <= i < p ==> s[i] != ']')
      && (forall i :: p + 2 <= i < q ==> s[i] != ')')
  {
    var x := s[j..];
    if MatchAt(x).Some? {
      var a := FirstIndex(x, 2, ']');
      var t := FirstIndex(x, a + 2, ')');
      assert MatchAt(x).value == LinkMatch(x[2..a], x[a + 2..t], t + 1);
      assert forall i :: j <= i < |s| ==> s[i] == x[i - j];
    }
  }

  /** If no `]` follows the opening `![`, the pattern matches nowhere. */
  lemma NoMatchWithoutBracket(s: string)
    requires forall i :: 2 <= i < |s| ==> s[i] != ']'
    ensures forall j :: 0 <= j <= |s| ==> MatchAt(s[j..]).None?
  {
    forall j | 0 <= j <= |s|
      ensures MatchAt(s[j..]).None?
    {
      MatchAtIn(s, j);
    }
  }

  /**
   * If the first `]` (at `a`) is followed by `(` but no `)` comes after it,
   * the pattern matches nowhere.
   */
  lemma NoMatchWithoutClose(s: string, a: nat)
    requires 2 <= a < |s| && s[a] == ']'
    requires forall i :: 2 <= i < a ==> s[i] != ']'
    requires forall i :: a + 2 <= i < |s| ==> s[i] != ')'
    ensures forall j :: 0 <= j <= |s| ==> MatchAt(s[j..]).None?
  {
    forall j | 0 <= j <= |s|
      ensures MatchAt(s[j..]).None?
    {
      MatchAtIn(s, j);
    }
  }

  /** If the first `]` (at `a`) is not followed by `(`, no match starts at or before `a`. */
  lemma NoMatchBeforeBadParen(s: string, a: nat)
    requires 2 <= a < |s| && s[a] == ']'
    requires forall i :: 2 <= i < a ==> s[i] != ']'
    requires a + 1 == |s| || s[a + 1] != '('
    ensures forall j :: 0 <= j <= a ==> MatchAt(s[j..]).None?
  {
    forall j | 0 <= j <= a
      ensures MatchAt(s[j..]).None?
    {
      MatchAtIn(s, j);
    }
  }

  /** If the first `]` (at `a`) is followed by `()`, no match starts at or before the `)`. */
  lemma NoMatchBeforeEmptyTarget(s: string, a: nat)
    requires 2 <= a && a + 2 < |s| && s[a] == ']' && s[a + 1] == '(' && s[a + 2] == ')'
    requires forall i :: 2 <= i < a ==> s[i] != ']'
    ensures forall j :: 0 <= j <= a + 2 ==> MatchAt(s[j..]).None?
  {
    forall j | 0 <= j <= a + 2
      ensures MatchAt(s[j..]).None?
    {
      MatchAtIn(s, j);
    }
  }

  /** Text in which no match starts before `k` is copied through up to `k`. */
  lemma {:induction false} RewriteCopiesPrefix(s: string, k: nat)
    requires k <= |s|
    requires forall j :: 0 <= j < k ==> MatchAt(s[j..]).None?
    ensures Rewrite(s) == s[..k] + Rewrite(s[k..])
    decreases k
  {
    if k > 0 {
      TakeAll(s);
      var t := s[1..];
      assert MatchAt(s).None?;
      assert Rewrite(s) == [s[0]] + Rewrite(t);
      forall j | 0 <= j < k - 1
        ensures MatchAt(t[j..]).None?
      {
        DropDrop(s, 1, j);
      }
      RewriteCopiesPrefix(t, k - 1);
      DropDrop(s, 1, k - 1);
      TakeCons(s, k);
      Assoc([s[0]], t[..k - 1], Rewrite(s[k..]));
    }
  }

  /** The rewrite keeps the first character. */
  lemma RewriteFirst(s: string)
    requires s != []
    ensures Rewrite(s) != [] && Rewrite(s)[0] == s[0]
  {
    match MatchAt(s)
    case Some(m) =>
      assert s[..m.len][0] == s[0];
    case None =>
  }

  /** Where the pattern does not match at the start, it does not match there after rewriting either. */
  lemma NoMatchPreserved(s: string)
    requires s != [] && MatchAt(s).None?
    ensures MatchAt(Rewrite(s)).None?
  {
    if |s| == 1 || s[0] != '!' || s[1] != '[' {
      NoMatchPreservedAtStart(s);
    } else {
      var a := FirstIndex(s, 2, ']');
      if a == |s| {
        NoMatchWithoutBracket(s);
        NoMatchAnywhere(s);
      } else if a + 1 == |s| || s[a + 1] != '(' {
        NoMatchPreservedBadParen(s, a);
      } else if FirstIndex(s, a + 2, ')') == |s| {
        NoMatchWithoutClose(s, a);
        NoMatchAnywhere(s);
      } else {
        NoMatchPreservedEmptyTarget(s, a);
      }
    }
  }

  /** The rewrite keeps the first two characters when the second is not `[`. */
  lemma NoMatchPreservedAtStart(s: string)
    requires s != [] && MatchAt(s).None?
    requires |s| == 1 || s[0] != '!' || s[1] != '['
    ensures MatchAt(Rewrite(s)).None?
  {
    RewriteStart(s);
    NoMatchByStart(Rewrite(s));
  }

  /** Without a match at the start, the rewrite begins with the same one or two characters. */
  lemma RewriteStart(s: string)
    requires s != [] && MatchAt(s).None?
    ensures |s| == 1 ==> |Rewrite(s)| == 1 && Rewrite(s)[0] == s[0]
    ensures |s| >= 2 ==> |Rewrite(s)| >= 2 && Rewrite(s)[0] == s[0] && Rewrite(s)[1] == s[1]
  {
    TakeAll(s);
    PrefixCopied(s, 1);
  }

  /** The pattern needs `![` at the very start. */
  lemma NoMatchByStart(r: string)
    requires |r| < 2 || r[0] != '!' || r[1] != '['
    ensures MatchAt(r).None?
  {
  }

  /**
   * Where the pattern matches at none of the first `k` positions, the rewrite
   * starts with those `k` characters and then the one at `k`, if any.
   */
  lemma PrefixCopied(s: string, k: nat)
    requires k <= |s|
    requires forall j :: 0 <= j < k ==> MatchAt(s[j..]).None?
    ensures |Rewrite(s)| >= k
    ensures forall i :: 0 <= i < k ==> Rewrite(s)[i] == s[i]
    ensures k < |s| ==> |Rewrite(s)| > k && Rewrite(s)[k] == s[k]
    ensures k == |s| ==> |Rewrite(s)| == k
  {
    RewriteCopiesPrefix(s, k);
    AppendParts(s[..k], Rewrite(s[k..]));
    if k < |s| {
      RewriteFirst(s[k..]);
    } else {
      assert s[k..] == [];
    }
  }

  /** Text in which the pattern matches nowhere is copied through whole. */
  lemma NoMatchAnywhere(s: string)
    requires forall j :: 0 <= j <= |s| ==> MatchAt(s[j..]).None?
    ensures Rewrite(s) == s
  {
    RewriteCopiesPrefix(s, |s|);
    TakeAll(s);
    assert s[|s|..] == [];
    AppendEmpty(s);
  }

  /** The first `]`, at `a`, is not followed by `(`: the rewrite keeps the text up to `a + 1`. */
  lemma NoMatchPreservedBadParen(s: string, a: nat)
    requires 2 <= a < |s| && s[0] == '!' && s[1] == '['
    requires a == FirstIndex(s, 2, ']')
    requires a + 1 == |s| || s[a + 1] != '('
    ensures MatchAt(Rewrite(s)).None?
  {
    NoMatchBeforeBadParen(s, a);
    PrefixCopied(s, a + 1);
    BadParenAtStart(Rewrite(s), a);
  }

  /** `![` up to a first `]` that no `(` follows: no match. */
  lemma BadParenAtStart(r: string, a: nat)
    requires 2 <= a < |r| && r[0] == '!' && r[1] == '[' && r[a] == ']'
    requires forall i :: 2 <= i < a ==> r[i] != ']'
    requires a + 1 == |r| || r[a + 1] != '('
    ensures MatchAt(r).None?
  {
    FirstIndexIs(r, 2, ']', a);
  }

  /** The first `]`, at `a`, is followed by `()`: the rewrite keeps the text up to the `)`. */
  lemma NoMatchPreservedEmptyTarget(s: string, a: nat)
    requires 2 <= a && a + 1 < |s| && s[0] == '!' && s[1] == '[' && s[a + 1] == '('
    requires a == FirstIndex(s, 2, ']')
    requires FirstIndex(s, a + 2, ')') < |s| && MatchAt(s).None?
    ensures MatchAt(Rewrite(s)).None?
  {
    assert FirstIndex(s, a + 2, ')') == a + 2;
    NoMatchBeforeEmptyTarget(s, a);
    PrefixCopied(s, a + 3);
    EmptyTargetAtStart(Rewrite(s), a);
  }

  /** `![` up to a first `]` followed by `()`: no match. */
  lemma EmptyTargetAtStart(r: string, a: nat)
    requires 2 <= a && a + 2 < |r| && r[0] == '!' && r[1] == '['
    requires r[a] == ']' && r[a + 1] == '(' && r[a + 2] == ')'
    requires forall i :: 2 <= i < a ==> r[i] != ']'
    ensures MatchAt(r).None?
  {
    FirstIndexIs(r, 2, ']', a);
    FirstIndexIs(r, a + 2, ')', a + 2);
  }

  /** A string without `/` cannot contain the API marker. */
  lemma {:induction false} NoSlashNoMarker(x: string)
    requires forall i :: 0 <= i < |x| ==> x[i] != '/'
    ensures !Contains(x, ApiMarker)
    decreases |x|
  {
    assert ApiMarker[0] == '/';
    if x != [] {
      NoSlashNoMarker(x[1..]);
      if |ApiMarker| <= |x| {
        assert x[..|ApiMarker|][0] == x[0];
      }
    }
  }

  /** `![alt]()` survives any further rewrite: the pattern needs a non-empty target. */
  lemma EmptyLinkStable(alt: string, rest: string)
    requires forall i :: 0 <= i < |alt| ==> alt[i] != ']'
    ensures Rewrite(LinkText(alt, "") + rest) == LinkText(alt, "") + Rewrite(rest)
  {
    var e := LinkText(alt, "");
    var s := e + rest;
    var a := |alt| + 2;
    assert forall i :: 2 <= i < a ==> s[i] == alt[i - 2];
    NoMatchBeforeEmptyTarget(s, a);
    RewriteCopiesPrefix(s, a + 3);
    assert s[..a + 3] == e;
    assert s[a + 3..] == rest;
  }

  /** A replacement, once made, is reproduced unchanged by a second rewrite whatever follows it. */
  lemma ReplacementStable(s: string, m: LinkMatch, rest: string)
    requires MatchAt(s) == Some(m)
    ensures Rewrite(Replacement(s, m) + rest) == Replacement(s, m) + Rewrite(rest)
  {
    if Contains(m.target, ApiMarker) {
      var target := LastSegment(m.target);
      if target == [] {
        EmptyLinkStable(m.alt, rest);
      } else {
        SegmentWellFormed(m.alt, m.target);
        LinkStable(m.alt, target, rest);
      }
    } else {
      MatchAtText(s);
      LinkStable(m.alt, m.target, rest);
    }
  }

  /** A non-empty last segment of a well-formed target is a well-formed target without the marker. */
  lemma SegmentWellFormed(alt: string, t: string)
    requires WellFormed(alt, t) && LastSegment(t) != []
    ensures WellFormed(alt, LastSegment(t)) && !Contains(LastSegment(t), ApiMarker)
  {
    var target := LastSegment(t);
    NoSlashNoMarker(target);
    assert forall i :: 0 <= i < |target| ==> target[i] == t[|t| - |target| + i];
  }

  /** A well-formed link without the API marker in its target is kept as it is. */
  lemma LinkStable(alt: string, target: string, rest: string)
    requires WellFormed(alt, target) && !Contains(target, ApiMarker)
    ensures Rewrite(LinkText(alt, target) + rest) == LinkText(alt, target) + Rewrite(rest)
  {
    var lt := LinkText(alt, target);
    var x := lt + rest;
    MatchAtComplete(alt, target, rest);
    RewriteAtMatch(x);
    AppendParts(lt, rest);
  }

  /** One step of the rewrite where the pattern matches. */
  lemma RewriteAtMatch(x: string)
    requires MatchAt(x).Some?
    ensures Rewrite(x) == Replacement(x, MatchAt(x).value) + Rewrite(x[MatchAt(x).value.len..])
  {
  }

  /** Rewriting twice is rewriting once. */
  lemma {:induction false} RewriteIdempotent(s: string)
    ensures Rewrite(Rewrite(s)) == Rewrite(s)
    decreases |s|
  {
    if s != [] {
      match MatchAt(s)
      case Some(m) =>
        RewriteIdempotent(s[m.len..]);
        ReplacementStable(s, m, Rewrite(s[m.len..]));
      case None =>
        var x := Rewrite(s[1..]);
        var r := [s[0]] + x;
        NoMatchPreserved(s);
        RewriteIdempotent(s[1..]);
        assert r[1..] == x;
    }
  }

  /** Each link is replaced on its own: a back-end link by its file name, any other link kept. */
  lemma RewriteLink(alt: string, target: string, rest: string)
    requires WellFormed(alt, target)
    ensures Rewrite(LinkText(alt, target) + rest) ==
      (if Contains(target, ApiMarker) then LinkText(alt, LastSegment(target)) else LinkText(alt, target))
      + Rewrite(rest)
  {
    var s := LinkText(alt, target) + rest;
    MatchAtComplete(alt, target, rest);
    assert s[..|LinkText(alt, target)|] == LinkText(alt, target);
    assert s[|LinkText(alt, target)|..] == rest;
  }

  /** Text that holds no `!` is copied through unchanged. */
  lemma RewritePlainPrefix(x: string, rest: string)
    requires forall i :: 0 <= i < |x| ==> x[i] != '!'
    ensures Rewrite(x + rest) == x + Rewrite(rest)
  {
    var s := x + rest;
    forall j | 0 <= j < |x|
      ensures MatchAt(s[j..]).None?
    {
      assert s[j..][0] == x[j];
    }
    RewriteCopiesPrefix(s, |x|);
    assert s[..|x|] == x;
    assert s[|x|..] == rest;
  }

  /** `Contains` over a prefix or a suffix implies `Contains` over the whole. */
  lemma {:induction false} ContainsPrefix(x: string, y: string, p: string)
    ensures Contains(x, p) ==> Contains(x + y, p)
    decreases |x|
  {
    if x != [] {
      ContainsPrefix(x[1..], y, p);
      assert (x + y)[1..] == x[1..] + y;
    }
    if StartsWith(x, p) {
      assert (x + y)[..|p|] == x[..|p|];
    }
  }

  lemma {:induction false} ContainsSuffix(s: string, k: nat, p: string)
    requires k <= |s|
    ensures Contains(s[k..], p) ==> Contains(s, p)
    decreases k
  {
    if k > 0 {
      assert s[1..][k - 1..] == s[k..];
      ContainsSuffix(s[1..], k - 1, p);
    } else {
      assert s[0..] == s;
    }
  }

  /** The target of a match is part of the text, so it cannot hold the marker when the text does not. */
  lemma MatchTargetInText(s: string, m: LinkMatch, p: string)
    requires MatchAt(s) == Some(m)
    ensures Contains(m.target, p) ==> Contains(s, p)
  {
    var lt := LinkText(m.alt, m.target);
    MatchAtText(s);
    ContainsPrefix(m.target, ")", p);
    LinkTextTail(m.alt, m.target);
    ContainsSuffix(lt, |m.alt| + 4, p);
    ContainsPrefix(lt, s[m.len..], p);
    SplitAt(s, m.len);
  }

  /** What follows the `](` of a link. */
  lemma LinkTextTail(alt: string, target: string)
    ensures LinkText(alt, target)[|alt| + 4..] == target + ")"
  {
  }

  /** Markdown that never mentions the API path comes back unchanged. */
  lemma {:induction false} RewriteWithoutMarker(s: string)
    requires !Contains(s, ApiMarker)
    ensures Rewrite(s) == s
    decreases |s|
  {
    if s != [] {
      match MatchAt(s)
      case Some(m) =>
        MatchTargetInText(s, m, ApiMarker);
        ContainsSuffix(s, m.len, ApiMarker);
        RewriteWithoutMarker(s[m.len..]);
        SplitAt(s, m.len);
      case None =>
        ContainsSuffix(s, 1, ApiMarker);
        RewriteWithoutMarker(s[1..]);
    }
  }
}
