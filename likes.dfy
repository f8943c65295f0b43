/**
 * The like list of a post (mongodb/models/post.ts): `likePost` is a `$addToSet`
 * and `unlikePost` a `$pull` on the `likes` array of user ids.
 */
module Likes {

  /** `$addToSet`: the list with `u` appended, unless `u` is already in it. */
  function AddToSet(likes: seq<string>, u: string): (r: seq<string>)
    ensures u in r
    ensures forall v :: v in likes ==> v in r
    ensures forall v :: v in r ==> v in likes || v == u
    ensures |r| == if u in likes then |likes| else |likes| + 1
  {
    if u in likes then likes else likes + [u]
  }

  /** `$pull`: the list with every occurrence of `u` removed, the rest in order. */
  function Pull(likes: seq<string>, u: string): (r: seq<string>)
    ensures u !in r
    ensures forall v :: v != u ==> (v in r <==> v in likes)
    ensures |r| <= |likes|
  {
    if |likes| == 0 then []
    else if likes[0] == u then Pull(likes[1..], u)
    else [likes[0]] + Pull(likes[1..], u)
  }

  /** A like list in which every user id occurs once. */
  predicate NoDuplicates(s: seq<string>) {
    forall i, j :: 0 <= i < j < |s| ==> s[i] != s[j]
  }

  /** Liking twice is the same as liking once. */
  lemma AddToSetIdempotent(likes: seq<string>, u: string)
    ensures AddToSet(AddToSet(likes, u), u) == AddToSet(likes, u)
  {
  }

  /** `$addToSet` keeps every user id unique. */
  lemma AddToSetKeepsNoDuplicates(likes: seq<string>, u: string)
    requires NoDuplicates(likes)
    ensures NoDuplicates(AddToSet(likes, u))
  {
  }

  /** Pulling a user id that is not there leaves the list as it was. */
  lemma {:induction false} PullAbsent(likes: seq<string>, u: string)
    requires u !in likes
    ensures Pull(likes, u) == likes
  {
    if |likes| > 0 {
      assert likes[0] != u;
      PullAbsent(likes[1..], u);
      assert likes == [likes[0]] + likes[1..];
    }
  }

  /** `$pull` works element by element, so it distributes over concatenation. */
  lemma {:induction false} PullAppend(a: seq<string>, b: seq<string>, u: string)
    ensures Pull(a + b, u) == Pull(a, u) + Pull(b, u)
  {
    if |a| > 0 {
      assert (a + b)[1..] == a[1..] + b;
      PullAppend(a[1..], b, u);
    } else {
      assert a + b == b;
    }
  }

  /** Unliking twice is the same as unliking once. */
  lemma PullIdempotent(likes: seq<string>, u: string)
    ensures Pull(Pull(likes, u), u) == Pull(likes, u)
  {
    PullAbsent(Pull(likes, u), u);
  }

  /** Like then unlike, starting from a list without `u`, restores the original list. */
  lemma LikeThenUnlike(likes: seq<string>, u: string)
    requires u !in likes
    ensures Pull(AddToSet(likes, u), u) == likes
  {
    PullAppend(likes, [u], u);
    PullAbsent(likes, u);
    assert Pull([u], u) == [];
  }

  /** `$pull` keeps every remaining user id unique. */
  lemma {:induction false} PullKeepsNoDuplicates(likes: seq<string>, u: string)
    requires NoDuplicates(likes)
    ensures NoDuplicates(Pull(likes, u))
  {
    if |likes| > 0 {
      PullKeepsNoDuplicates(likes[1..], u);
      if likes[0] != u {
        assert likes[0] !in likes[1..];
        assert likes[0] !in Pull(likes[1..], u);
      }
    }
  }
}
