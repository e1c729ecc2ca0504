/** Character-level helpers shared by the response cleaner: the whitespace set
    of JavaScript regular expressions (`\s`) and of `String.prototype.trim`,
    which are the same set. */
module Text {

  /** JavaScript whitespace and line terminators. */
  predicate IsSpace(c: char) {
    || c == '\t' || c == '\n' || c == '\U{B}' || c == '\U{C}' || c == '\r' || c == ' '
    || c == '\U{A0}' || c == '\U{1680}'
    || ('\U{2000}' <= c <= '\U{200A}')
    || c == '\U{2028}' || c == '\U{2029}' || c == '\U{202F}' || c == '\U{205F}'
    || c == '\U{3000}' || c == '\U{FEFF}'
  }

  /** Every character of `s` at positions `lo` up to (not including) `hi` is whitespace. */
  predicate SpaceBetween(s: string, lo: int, hi: int) {
    forall i :: 0 <= lo <= i < hi <= |s| ==> IsSpace(s[i])
  }

  predicate AllSpace(s: string) {
    SpaceBetween(s, 0, |s|)
  }

  /** Neither the first nor the last character is whitespace. */
  predicate NoOuterSpace(s: string) {
    s == [] || (!IsSpace(s[0]) && !IsSpace(s[|s| - 1]))
  }

  predicate StartsWith(s: string, prefix: string) {
    |prefix| <= |s| && s[..|prefix|] == prefix
  }

  predicate EndsWith(s: string, suffix: string) {
    |suffix| <= |s| && s[|s| - |suffix|..] == suffix
  }

  /** `r` occurs as a contiguous piece of `s`, starting at offset `i`. */
  predicate InfixAt(r: string, s: string, i: int) {
    0 <= i && i + |r| <= |s| && s[i..i + |r|] == r
  }

  ghost predicate Infix(r: string, s: string) {
    exists i :: InfixAt(r, s, i)
  }

  lemma InfixAtTrans(a: string, b: string, c: string, i: int, j: int)
    requires InfixAt(a, b, i) && InfixAt(b, c, j)
    ensures InfixAt(a, c, j + i)
  {
    forall k | 0 <= k < |a|
      ensures c[j + i..j + i + |a|][k] == a[k]
    {
      assert a[k] == b[i + k] == c[j + i + k];
    }
    assert c[j + i..j + i + |a|] == a;
  }

  /** A suffix or a prefix of `s` is a piece of `s`. */
  lemma SuffixIsInfix(r: string, s: string)
    requires |r| <= |s| && r == s[|s| - |r|..]
    ensures InfixAt(r, s, |s| - |r|)
  {
    assert s[|s| - |r|..|s|] == s[|s| - |r|..];
  }

  lemma PrefixIsInfix(r: string, s: string)
    requires |r| <= |s| && r == s[..|r|]
    ensures InfixAt(r, s, 0)
  {
    assert s[0..|r|] == s[..|r|];
  }

  /** A prefix of a suffix of `s` is a piece of `s`. */
  lemma PrefixOfSuffix(r: string, t: string, s: string)
    requires |t| <= |s| && t == s[|s| - |t|..]
    requires |r| <= |t| && r == t[..|r|]
    ensures InfixAt(r, s, |s| - |t|)
  {
    SuffixIsInfix(t, s);
    PrefixIsInfix(r, t);
    InfixAtTrans(r, t, s, 0, |s| - |t|);
  }

  /** A piece of a prefix of a suffix of `s` is a piece of `s`. */
  lemma InfixOfPrefixOfSuffix(r: string, b: string, a: string, s: string, k: int)
    requires |a| <= |s| && a == s[|s| - |a|..]
    requires |b| <= |a| && b == a[..|b|]
    requires InfixAt(r, b, k)
    ensures InfixAt(r, s, |s| - |a| + k)
  {
    SuffixIsInfix(a, s);
    PrefixIsInfix(b, a);
    InfixAtTrans(b, a, s, 0, |s| - |a|);
    InfixAtTrans(r, b, s, k, |s| - |a|);
  }

  /** Whitespace positions of a suffix are whitespace positions of the whole, shifted. */
  lemma SpaceInSuffix(t: string, s: string, lo: int, hi: int)
    requires |t| <= |s| && t == s[|s| - |t|..]
    requires 0 <= lo && SpaceBetween(t, lo, hi)
    ensures SpaceBetween(s, |s| - |t| + lo, |s| - |t| + hi)
  {
    var d := |s| - |t|;
    forall k | 0 <= d + lo <= k < d + hi <= |s|
      ensures IsSpace(s[k])
    {
      assert s[k] == t[k - d];
    }
  }

  /** A string that differs from `prefix` at some position within it does not start with it. */
  lemma MismatchNotPrefix(s: string, prefix: string, i: int)
    requires 0 <= i < |prefix| && i < |s| && s[i] != prefix[i]
    ensures !StartsWith(s, prefix)
  {
    if |prefix| <= |s| {
      assert s[..|prefix|][i] == s[i];
    }
  }

  /** A whitespace run in front of text that starts with a non-space is exactly
      what the leading drop removes. */
  lemma {:induction false} DropSpaceRun(ws: string, t: string)
    requires AllSpace(ws) && (t == [] || !IsSpace(t[0]))
    ensures DropLeadingSpace(ws + t) == t
    decreases |ws|
  {
    if ws != [] {
      assert (ws + t)[0] == ws[0];
      assert (ws + t)[1..] == ws[1..] + t;
      DropSpaceRun(ws[1..], t);
    }
  }

  /** Removes the maximal run of whitespace at the front (`\s*` anchored at the
      start, or the left half of `trim`). */
  function DropLeadingSpace(s: string): (r: string)
    ensures |r| <= |s| && r == s[|s| - |r|..]
    ensures SpaceBetween(s, 0, |s| - |r|)
    ensures r == [] || !IsSpace(r[0])
  {
    if s != [] && IsSpace(s[0]) then DropLeadingSpace(s[1..]) else s
  }

  /** Removes the maximal run of whitespace at the end. */
  function DropTrailingSpace(s: string): (r: string)
    ensures |r| <= |s| && r == s[..|r|]
    ensures SpaceBetween(s, |r|, |s|)
    ensures r == [] || !IsSpace(r[|r| - 1])
  {
    if s != [] && IsSpace(s[|s| - 1]) then DropTrailingSpace(s[..|s| - 1]) else s
  }

  /** `String.prototype.trim`: the text between the leading and trailing
      whitespace runs. */
  function Trim(s: string): (r: string)
    ensures NoOuterSpace(r)
    ensures InfixAt(r, s, |s| - |DropLeadingSpace(s)|)
  {
    var t := DropLeadingSpace(s);
    var r := DropTrailingSpace(t);
    assert |r| > 0 ==> r[0] == t[0];
    PrefixOfSuffix(r, t, s);
    r
  }

  /** What trimming removes on either side is whitespace only. */
  lemma TrimRemovesOnlySpace(s: string)
    ensures var i := |s| - |DropLeadingSpace(s)|;
            && SpaceBetween(s, 0, i)
            && SpaceBetween(s, i + |Trim(s)|, |s|)
  {
    var t := DropLeadingSpace(s);
    var r := DropTrailingSpace(t);
    assert Trim(s) == r;
    SpaceInSuffix(t, s, |r|, |t|);
  }

  /** Trimming text that already has no outer whitespace changes nothing. */
  lemma {:induction false} TrimNoOuterSpace(s: string)
    requires NoOuterSpace(s)
    ensures Trim(s) == s
  {
    assert DropLeadingSpace(s) == s;
    assert DropTrailingSpace(s) == s;
  }
}
