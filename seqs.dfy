/**
 * Sequence helpers shared by the store model: first-match lookup (the in-memory
 * reading of a `findOne` over a collection kept in insertion order), uniqueness
 * of a key, and the descending sort that `sort({ createdAt: -1 })` performs.
 */
module Seqs {
  import opened Wrappers

  /** Index of the first element whose key is `k`, or None when no element has that key. */
  function FirstIndexOf<T, K(==)>(s: seq<T>, key: T -> K, k: K): (r: Option<nat>)
    ensures r.Some? ==> r.value < |s| && key(s[r.value]) == k
    ensures r.Some? ==> forall j :: 0 <= j < r.value ==> key(s[j]) != k
    ensures r.None? <==> forall j :: 0 <= j < |s| ==> key(s[j]) != k
  {
    if |s| == 0 then None
    else if key(s[0]) == k then Some(0)
    else match FirstIndexOf(s[1..], key, k)
      case None => None
      case Some(i) => Some(i + 1)
  }

  /** Looking up a key after appending one element. */
  lemma {:induction false} FirstIndexOfAppend<T, K>(s: seq<T>, key: T -> K, x: T, k: K)
    ensures FirstIndexOf(s + [x], key, k) ==
      if FirstIndexOf(s, key, k).Some? then FirstIndexOf(s, key, k)
      else if key(x) == k then Some(|s|) else None
  {
    if |s| > 0 {
      assert (s + [x])[1..] == s[1..] + [x];
      FirstIndexOfAppend(s[1..], key, x, k);
    }
  }

  /** The scan a store performs for `findOne`: the first match in insertion order. */
  method Find<T, K(==)>(s: seq<T>, key: T -> K, k: K) returns (r: Option<nat>)
    ensures r == FirstIndexOf(s, key, k)
  {
    var i := 0;
    while i < |s|
      invariant 0 <= i <= |s|
      invariant forall j :: 0 <= j < i ==> key(s[j]) != k
    {
      if key(s[i]) == k {
        return Some(i);
      }
      i := i + 1;
    }
    return None;
  }

  /** The key of every element, in order. */
  function Keys<T, K>(s: seq<T>, key: T -> K): (r: seq<K>)
    ensures |r| == |s|
    ensures forall i :: 0 <= i < |s| ==> r[i] == key(s[i])
  {
    seq(|s|, i requires 0 <= i < |s| => key(s[i]))
  }

  /** How many elements have key `k`: the count `countDocuments` returns. */
  lemma {:induction false} CountZeroIffAbsent<T, K>(s: seq<T>, key: T -> K, k: K)
    ensures multiset(Keys(s, key))[k] == 0 <==> FirstIndexOf(s, key, k).None?
  {
    if |s| > 0 {
      CountZeroIffAbsent(s[1..], key, k);
      assert Keys(s, key) == [key(s[0])] + Keys(s[1..], key);
    }
  }

  /** No two elements share a key. */
  ghost predicate DistinctKeys<T, K>(s: seq<T>, key: T -> K) {
    forall i, j :: 0 <= i < j < |s| ==> key(s[i]) != key(s[j])
  }

  /** Every key is below `n` (ids handed out by a counter that is now at `n`). */
  ghost predicate KeysBelow<T>(s: seq<T>, key: T -> nat, n: nat) {
    forall i :: 0 <= i < |s| ==> key(s[i]) < n
  }

  /** With distinct keys, looking up an element's own key finds that element. */
  lemma FirstIndexOfDistinct<T, K>(s: seq<T>, key: T -> K, k: nat)
    requires DistinctKeys(s, key)
    requires k < |s|
    ensures FirstIndexOf(s, key, key(s[k])) == Some(k)
  {
    assert FirstIndexOf(s, key, key(s[k])).Some?;
  }

  /** With distinct keys, removing the element at `k` removes every element with its key. */
  lemma SpliceRemovesKey<T, K>(s: seq<T>, key: T -> K, k: nat)
    requires DistinctKeys(s, key)
    requires k < |s|
    ensures forall x :: x in s[..k] + s[k + 1..] ==> key(x) != key(s[k])
  {
    var t := s[..k] + s[k + 1..];
    forall i | 0 <= i < |t|
      ensures key(t[i]) != key(s[k])
    {
      if i < k {
        assert t[i] == s[i];
      } else {
        assert t[i] == s[i + 1];
      }
    }
  }

  lemma DistinctKeysAppend<T, K>(s: seq<T>, key: T -> K, x: T)
    requires DistinctKeys(s, key)
    requires forall j :: 0 <= j < |s| ==> key(s[j]) != key(x)
    ensures DistinctKeys(s + [x], key)
  {
    var t := s + [x];
    forall i, j | 0 <= i < j < |t| ensures key(t[i]) != key(t[j]) {
      if j == |s| {
        assert t[i] == s[i];
      } else {
        assert t[i] == s[i] && t[j] == s[j];
      }
    }
  }

  lemma DistinctKeysSplice<T, K>(s: seq<T>, key: T -> K, k: nat)
    requires DistinctKeys(s, key)
    requires k < |s|
    ensures DistinctKeys(s[..k] + s[k + 1..], key)
  {
    var t := s[..k] + s[k + 1..];
    forall i, j | 0 <= i < j < |t| ensures key(t[i]) != key(t[j]) {
      var i' := if i < k then i else i + 1;
      var j' := if j < k then j else j + 1;
      assert t[i] == s[i'] && t[j] == s[j'];
    }
  }

  /** A splice removes exactly element `k`: what remains is every other element, in order. */
  lemma SpliceElements<T>(s: seq<T>, k: nat)
    requires k < |s|
    ensures |s[..k] + s[k + 1..]| == |s| - 1
    ensures forall i :: 0 <= i < k ==> (s[..k] + s[k + 1..])[i] == s[i]
    ensures forall i :: k < i < |s| ==> (s[..k] + s[k + 1..])[i - 1] == s[i]
  {
  }

  ghost predicate SortedDesc<T>(s: seq<T>, key: T -> int) {
    forall i, j :: 0 <= i < j < |s| ==> key(s[i]) >= key(s[j])
  }

  /** Insert `x` into a descending sequence, before the first element whose key is not larger. */
  function InsertDesc<T>(x: T, s: seq<T>, key: T -> int): (r: seq<T>)
    requires SortedDesc(s, key)
    ensures SortedDesc(r, key)
    ensures multiset(r) == multiset(s) + multiset{x}
    ensures |r| == |s| + 1
    ensures key(r[0]) == key(x) || (|s| > 0 && key(r[0]) == key(s[0]))
  {
    if |s| == 0 then [x]
    else if key(x) >= key(s[0]) then [x] + s
    else
      var rest := InsertDesc(x, s[1..], key);
      assert s == [s[0]] + s[1..];
      [s[0]] + rest
  }

  /** Newest-first ordering: a permutation of `s` whose keys never increase. */
  function SortDesc<T>(s: seq<T>, key: T -> int): (r: seq<T>)
    ensures SortedDesc(r, key)
    ensures multiset(r) == multiset(s)
    ensures |r| == |s|
  {
    if |s| == 0 then []
    else
      assert s == [s[0]] + s[1..];
      InsertDesc(s[0], SortDesc(s[1..], key), key)
  }
}
