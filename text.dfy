/**
 * The string operations the search route relies on: `String.prototype.trim`
 * and a case-insensitive substring test (the `$regex` match with option "i",
 * for a query without regular-expression syntax).
 */
module Text {

  /** The whitespace and line terminators `trim` removes (the common ones; see README). */
  predicate IsSpace(c: char) {
    || c == ' ' || c == '\t' || c == '\n' || c == '\r' || c == '\U{000B}' || c == '\U{000C}'
    || c == '\U{00A0}' || c == '\U{FEFF}' || c == '\U{2028}' || c == '\U{2029}'
  }

  /** The `n` characters of `s` starting at `i`. */
  function Window(s: string, i: nat, n: nat): (w: string)
    requires i + n <= |s|
    ensures |w| == n && forall k :: 0 <= k < n ==> w[k] == s[i + k]
  {
    s[i..i + n]
  }

  /** `s` without its leading whitespace. */
  function TrimStart(s: string): (r: string)
    ensures |r| <= |s| && r == s[|s| - |r|..]
    ensures forall i :: 0 <= i < |s| - |r| ==> IsSpace(s[i])
    ensures r == [] || !IsSpace(r[0])
  {
    if |s| > 0 && IsSpace(s[0]) then TrimStart(s[1..]) else s
  }

  /** `s` without its trailing whitespace. */
  function TrimEnd(s: string): (r: string)
    ensures |r| <= |s| && r == s[..|r|]
    ensures forall i :: |r| <= i < |s| ==> IsSpace(s[i])
    ensures r == [] || !IsSpace(r[|r| - 1])
  {
    if |s| > 0 && IsSpace(s[|s| - 1]) then TrimEnd(s[..|s| - 1]) else s
  }

  /** `trim`: the longest slice of `s` that neither starts nor ends with whitespace. */
  function Trim(s: string): (r: string)
    ensures exists i ::
              && 0 <= i <= |s| - |r| && r == Window(s, i, |r|)
              && (forall k :: 0 <= k < i ==> IsSpace(s[k]))
              && (forall k :: i + |r| <= k < |s| ==> IsSpace(s[k]))
    ensures r == [] || (!IsSpace(r[0]) && !IsSpace(r[|r| - 1]))
    ensures (forall i :: 0 <= i < |s| ==> !IsSpace(s[i])) ==> r == s
  {
    var t := TrimStart(s);
    var r := TrimEnd(t);
    TrimFacts(s, t, r);
    r
  }

  /**
   * Cutting leading whitespace and then trailing whitespace leaves a window of
   * `s` with only whitespace around it and none at its ends.
   */
  lemma TrimFacts(s: string, t: string, r: string)
    requires |t| <= |s| && t == s[|s| - |t|..]
    requires forall i :: 0 <= i < |s| - |t| ==> IsSpace(s[i])
    requires t == [] || !IsSpace(t[0])
    requires |r| <= |t| && r == t[..|r|]
    requires forall i :: |r| <= i < |t| ==> IsSpace(t[i])
    requires r == [] || !IsSpace(r[|r| - 1])
    ensures exists i ::
              && 0 <= i <= |s| - |r| && r == Window(s, i, |r|)
              && (forall k :: 0 <= k < i ==> IsSpace(s[k]))
              && (forall k :: i + |r| <= k < |s| ==> IsSpace(s[k]))
    ensures r == [] || (!IsSpace(r[0]) && !IsSpace(r[|r| - 1]))
    ensures (forall i :: 0 <= i < |s| ==> !IsSpace(s[i])) ==> r == s
  {
    var i := |s| - |t|;
    TrimIsWindow(s, t, r);
    TrailingSpace(s, t, r);
    assert r == Window(s, i, |r|);
    assert r != [] ==> r[0] == t[0];
    if forall j :: 0 <= j < |s| ==> !IsSpace(s[j]) {
      assert |s| > 0 ==> !IsSpace(s[0]);
      assert t == s;
      assert |t| > 0 ==> !IsSpace(t[|t| - 1]);
    }
  }

  /** A prefix of a suffix of `s` is a window of `s`. */
  lemma TrimIsWindow(s: string, t: string, r: string)
    requires |t| <= |s| && t == s[|s| - |t|..]
    requires |r| <= |t| && r == t[..|r|]
    ensures r == Window(s, |s| - |t|, |r|)
  {
  }

  /** What `TrimEnd` cut off is whitespace of `s` too. */
  lemma TrailingSpace(s: string, t: string, r: string)
    requires |t| <= |s| && t == s[|s| - |t|..]
    requires |r| <= |t| && forall i :: |r| <= i < |t| ==> IsSpace(t[i])
    ensures forall k :: |s| - |t| + |r| <= k < |s| ==> IsSpace(s[k])
  {
    forall k | |s| - |t| + |r| <= k < |s|
      ensures IsSpace(s[k])
    {
      assert s[k] == t[k - (|s| - |t|)];
    }
  }

  /** A trimmed string trims to itself. */
  lemma TrimIdempotent(s: string)
    ensures Trim(Trim(s)) == Trim(s)
  {
    var r := Trim(s);
    if r != [] {
      assert TrimStart(r) == r;
      assert TrimEnd(r) == r;
    }
  }

  /** ASCII upper case letters map to lower case; every other character is kept. */
  function Lower(c: char): (d: char)
    ensures 'A' <= c <= 'Z' ==> d as int == c as int + 32
    ensures !('A' <= c <= 'Z') ==> d == c
  {
    if 'A' <= c <= 'Z' then (c as int + 32) as char else c
  }

  function LowerAll(s: string): (r: string)
    ensures |r| == |s|
    ensures forall i :: 0 <= i < |s| ==> r[i] == Lower(s[i])
  {
    seq(|s|, i requires 0 <= i < |s| => Lower(s[i]))
  }

  /** `q` occurs in `s` as a contiguous piece. */
  predicate Occurs(q: string, s: string) {
    exists i :: 0 <= i <= |s| - |q| && Window(s, i, |q|) == q
  }

  /** The case-insensitive match of `q` against `s`, ignoring the case of ASCII letters. */
  predicate ContainsIgnoringCase(s: string, q: string) {
    Occurs(LowerAll(q), LowerAll(s))
  }

  /** A string contains itself, whatever the letter case of the query. */
  lemma ContainsSelf(s: string)
    ensures ContainsIgnoringCase(s, s)
  {
    assert Window(LowerAll(s), 0, |s|) == LowerAll(s);
  }

  /** Matching does not depend on the letter case of the query. */
  lemma MatchIgnoresQueryCase(s: string, q: string)
    ensures ContainsIgnoringCase(s, q) <==> ContainsIgnoringCase(s, LowerAll(q))
  {
    assert LowerAll(LowerAll(q)) == LowerAll(q);
  }
}
