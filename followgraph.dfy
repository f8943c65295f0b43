/**
 * The read side of the follow graph (mongodb/models/followers.ts): which edges
 * exist, the "at most one edge per pair" invariant, and the two listings
 * `getAllFollowers` and `getAllFollowing`.
 */
module FollowGraph {
  import opened Wrappers
  import opened Records
  import Seqs

  /** An edge from `a` to `b` exists: the query `findOne({follower.userId: a, following.userId: b})` finds one. */
  ghost predicate HasEdge(edges: seq<FollowEdge>, a: string, b: string) {
    exists i :: 0 <= i < |edges| && EdgePair(edges[i]) == (a, b)
  }

  /** At most one edge for each (follower id, following id) pair. */
  ghost predicate AtMostOnePerPair(edges: seq<FollowEdge>) {
    Seqs.DistinctKeys(edges, EdgePair)
  }

  lemma HasEdgeIffFound(edges: seq<FollowEdge>, a: string, b: string)
    ensures HasEdge(edges, a, b) <==> Seqs.FirstIndexOf(edges, EdgePair, (a, b)).Some?
  {
  }

  /** Appending an edge for a pair that has none keeps the pairs unique. */
  lemma AddEdgeKeepsUnique(edges: seq<FollowEdge>, e: FollowEdge)
    requires AtMostOnePerPair(edges)
    requires !HasEdge(edges, e.follower.userId, e.following.userId)
    ensures AtMostOnePerPair(edges + [e])
  {
    Seqs.DistinctKeysAppend(edges, EdgePair, e);
  }

  /** Removing the edge of a pair leaves no edge for that pair, since there was only one. */
  lemma RemoveEdgeClearsPair(edges: seq<FollowEdge>, k: nat)
    requires AtMostOnePerPair(edges)
    requires k < |edges|
    ensures !HasEdge(edges[..k] + edges[k + 1..], edges[k].follower.userId, edges[k].following.userId)
  {
    var t := edges[..k] + edges[k + 1..];
    forall i | 0 <= i < |t|
      ensures EdgePair(t[i]) != EdgePair(edges[k])
    {
      if i < k {
        assert t[i] == edges[i];
      } else {
        assert t[i] == edges[i + 1];
      }
    }
  }

  /** One entry of `getAllFollowers`: the follower side of an edge. */
  datatype FollowerEntry = FollowerEntry(
    follower: string,
    followerImage: Option<string>,
    followerFirstName: Option<string>,
    followerLastName: Option<string>)

  /** One entry of `getAllFollowing`: the following side of an edge. */
  datatype FollowingEntry = FollowingEntry(
    following: string,
    followingImage: Option<string>,
    followingFirstName: Option<string>,
    followingLastName: Option<string>)

  function FollowerOf(e: FollowEdge): FollowerEntry {
    FollowerEntry(e.follower.userId, e.follower.userImage, e.follower.firstName, e.follower.lastName)
  }

  function FollowingOf(e: FollowEdge): FollowingEntry {
    FollowingEntry(e.following.userId, e.following.userImage, e.following.firstName, e.following.lastName)
  }

  /** `find({following.userId: u})` mapped to the follower side, in store order. */
  function FollowersOf(edges: seq<FollowEdge>, u: string): (r: seq<FollowerEntry>)
    ensures |r| <= |edges|
  {
    if |edges| == 0 then []
    else (if edges[0].following.userId == u then [FollowerOf(edges[0])] else []) + FollowersOf(edges[1..], u)
  }

  /** `find({follower.userId: u})` mapped to the following side, in store order. */
  function FollowingOfUser(edges: seq<FollowEdge>, u: string): (r: seq<FollowingEntry>)
    ensures |r| <= |edges|
  {
    if |edges| == 0 then []
    else (if edges[0].follower.userId == u then [FollowingOf(edges[0])] else []) + FollowingOfUser(edges[1..], u)
  }

  /** `getAllFollowers`: a failing query is logged and yields an empty list. */
  function GetAllFollowers(edges: seq<FollowEdge>, userId: string, fault: bool): (r: seq<FollowerEntry>)
    ensures fault ==> r == []
    ensures !fault ==> forall x :: x in r ==> HasEdge(edges, x.follower, userId)
  {
    if fault then []
    else
      FollowersExact(edges, userId);
      FollowersOf(edges, userId)
  }

  /** `getAllFollowing`: a failing query is logged and yields an empty list. */
  function GetAllFollowing(edges: seq<FollowEdge>, userId: string, fault: bool): (r: seq<FollowingEntry>)
    ensures fault ==> r == []
    ensures !fault ==> forall x :: x in r ==> HasEdge(edges, userId, x.following)
  {
    if fault then []
    else
      FollowingExact(edges, userId);
      FollowingOfUser(edges, userId)
  }

  /** The follower listing holds exactly the follower sides of the edges pointing at `u`. */
  lemma {:induction false} FollowersExact(edges: seq<FollowEdge>, u: string)
    ensures forall x :: x in FollowersOf(edges, u) <==>
      exists i :: 0 <= i < |edges| && edges[i].following.userId == u && x == FollowerOf(edges[i])
  {
    if |edges| > 0 {
      var tail := edges[1..];
      FollowersExact(tail, u);
      forall x ensures x in FollowersOf(edges, u) <==>
        exists i :: 0 <= i < |edges| && edges[i].following.userId == u && x == FollowerOf(edges[i])
      {
        if x in FollowersOf(tail, u) {
          var i :| 0 <= i < |tail| && tail[i].following.userId == u && x == FollowerOf(tail[i]);
          assert edges[i + 1] == tail[i];
        }
        if exists i :: 0 <= i < |edges| && edges[i].following.userId == u && x == FollowerOf(edges[i]) {
          var i :| 0 <= i < |edges| && edges[i].following.userId == u && x == FollowerOf(edges[i]);
          if i > 0 {
            assert tail[i - 1] == edges[i];
          }
        }
      }
    }
  }

  /** The following listing holds exactly the following sides of the edges leaving `u`. */
  lemma {:induction false} FollowingExact(edges: seq<FollowEdge>, u: string)
    ensures forall x :: x in FollowingOfUser(edges, u) <==>
      exists i :: 0 <= i < |edges| && edges[i].follower.userId == u && x == FollowingOf(edges[i])
  {
    if |edges| > 0 {
      var tail := edges[1..];
      FollowingExact(tail, u);
      forall x ensures x in FollowingOfUser(edges, u) <==>
        exists i :: 0 <= i < |edges| && edges[i].follower.userId == u && x == FollowingOf(edges[i])
      {
        if x in FollowingOfUser(tail, u) {
          var i :| 0 <= i < |tail| && tail[i].follower.userId == u && x == FollowingOf(tail[i]);
          assert edges[i + 1] == tail[i];
        }
        if exists i :: 0 <= i < |edges| && edges[i].follower.userId == u && x == FollowingOf(edges[i]) {
          var i :| 0 <= i < |edges| && edges[i].follower.userId == u && x == FollowingOf(edges[i]);
          if i > 0 {
            assert tail[i - 1] == edges[i];
          }
        }
      }
    }
  }

  /** One entry per matching edge: as many follower entries as edges pointing at `u`. */
  lemma {:induction false} FollowersCount(edges: seq<FollowEdge>, u: string)
    ensures |FollowersOf(edges, u)| == multiset(Seqs.Keys(edges, FollowingIdOf))[u]
  {
    if |edges| > 0 {
      FollowersCount(edges[1..], u);
      assert Seqs.Keys(edges, FollowingIdOf) == [FollowingIdOf(edges[0])] + Seqs.Keys(edges[1..], FollowingIdOf);
    }
  }

  /** One entry per matching edge: as many following entries as edges leaving `u`. */
  lemma {:induction false} FollowingCount(edges: seq<FollowEdge>, u: string)
    ensures |FollowingOfUser(edges, u)| == multiset(Seqs.Keys(edges, FollowerIdOf))[u]
  {
    if |edges| > 0 {
      FollowingCount(edges[1..], u);
      assert Seqs.Keys(edges, FollowerIdOf) == [FollowerIdOf(edges[0])] + Seqs.Keys(edges[1..], FollowerIdOf);
    }
  }

  /** Under the pair invariant, no follower is listed twice. */
  lemma {:induction false} FollowersDistinct(edges: seq<FollowEdge>, u: string)
    requires AtMostOnePerPair(edges)
    ensures forall k, l :: 0 <= k < l < |FollowersOf(edges, u)| ==>
      FollowersOf(edges, u)[k].follower != FollowersOf(edges, u)[l].follower
  {
    if |edges| > 0 {
      var tail := edges[1..];
      assert AtMostOnePerPair(tail) by {
        forall i, j | 0 <= i < j < |tail| ensures EdgePair(tail[i]) != EdgePair(tail[j]) {
          assert tail[i] == edges[i + 1] && tail[j] == edges[j + 1];
        }
      }
      FollowersDistinct(tail, u);
      FollowersExact(tail, u);
      var r := FollowersOf(edges, u);
      if edges[0].following.userId == u {
        forall l | 1 <= l < |r| ensures r[0].follower != r[l].follower {
          assert r[l] == FollowersOf(tail, u)[l - 1];
          assert r[l] in FollowersOf(tail, u);
          var i :| 0 <= i < |tail| && tail[i].following.userId == u && r[l] == FollowerOf(tail[i]);
          assert EdgePair(edges[0]) != EdgePair(edges[i + 1]);
        }
      }
    }
  }
}
