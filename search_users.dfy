/**
 * The user search route (app/api/search-users/route.ts): trim the query,
 * answer from the query cache when it holds an entry, otherwise collect up
 * to five authors whose first or last name matches, append the follower-side
 * results, drop later entries whose userId was already seen, and cache the
 * merged list under the query.
 *
 * The follower-side aggregation is a parameter: a list of at most five
 * entries. Cache expiry is the separate event `SearchCache.Expire`.
 */
module SearchUsers {
  import opened Wrappers
  import opened Records
  import opened Responses
  import opened Text
  import Seqs

  const QueryRequired := "Query parameter is required"
  const SearchFailed := "An error occurred while searching users"
  /** `$limit: 5` on each side. */
  const SideLimit := 5

  /** One search hit: a user id with the display fields of one of their snapshots. */
  datatype SearchUser = SearchUser(userId: string, firstName: Option<string>, lastName: Option<string>, userImage: Option<string>)

  function SearchUserId(u: SearchUser): string { u.userId }

  /** `searchParams.get("query")?.trim()`, with a missing parameter read as "". */
  function QueryOf(param: Option<string>): (q: string)
    ensures param.Some? ==> q == Trim(param.value)
    ensures param.None? ==> q == ""
  {
    if param.None? then "" else Trim(param.value)
  }

  /** A missing name never matches. */
  predicate NameMatches(name: Option<string>, q: string) {
    name.Some? && ContainsIgnoringCase(name.value, q)
  }

  /** The `$match` stage: the first or the last name of the post's author matches. */
  predicate PostMatches(p: Post, q: string) {
    NameMatches(p.user.firstName, q) || NameMatches(p.user.lastName, q)
  }

  function ToSearchUser(p: Post): SearchUser {
    SearchUser(p.user.userId, p.user.firstName, p.user.lastName, p.user.userImage)
  }

  /** The matching posts' authors, in stored order, one per matching post. */
  function Candidates(posts: seq<Post>, q: string): (r: seq<SearchUser>)
    ensures |r| <= |posts|
    ensures forall u :: u in r <==> exists i :: 0 <= i < |posts| && PostMatches(posts[i], q) && u == ToSearchUser(posts[i])
  {
    if |posts| == 0 then []
    else
      var rest := Candidates(posts[1..], q);
      assert forall i :: 0 < i < |posts| ==> posts[i] == posts[1..][i - 1];
      if PostMatches(posts[0], q) then [ToSearchUser(posts[0])] + rest else rest
  }

  /** The list holds an entry for `id`. */
  predicate HasId(d: seq<SearchUser>, id: string) {
    Seqs.FirstIndexOf(d, SearchUserId, id).Some?
  }

  /**
   * Keep the first entry for each userId, in order: the `reduce` that pushes
   * an entry unless the accumulator already has its userId.
   */
  function Dedup(s: seq<SearchUser>): (r: seq<SearchUser>)
    ensures |r| <= |s|
  {
    if |s| == 0 then []
    else
      var d := Dedup(s[..|s| - 1]);
      if HasId(d, s[|s| - 1].userId) then d else d + [s[|s| - 1]]
  }

  /** The merge keeps exactly the userIds of its input. */
  lemma {:induction false} DedupKeepsIds(s: seq<SearchUser>, id: string)
    ensures HasId(Dedup(s), id) <==> HasId(s, id)
  {
    if |s| > 0 {
      var s' := s[..|s| - 1];
      var x := s[|s| - 1];
      assert s == s' + [x];
      DedupKeepsIds(s', id);
      Seqs.FirstIndexOfAppend(s', SearchUserId, x, id);
      Seqs.FirstIndexOfAppend(Dedup(s'), SearchUserId, x, id);
      if HasId(Dedup(s'), x.userId) {
        DedupKeepsIds(s', x.userId);
      }
    }
  }

  /** The merge never holds two entries with the same userId. */
  lemma {:induction false} DedupDistinct(s: seq<SearchUser>)
    ensures Seqs.DistinctKeys(Dedup(s), SearchUserId)
  {
    if |s| > 0 {
      var s' := s[..|s| - 1];
      var x := s[|s| - 1];
      DedupDistinct(s');
      if !HasId(Dedup(s'), x.userId) {
        Seqs.DistinctKeysAppend(Dedup(s'), SearchUserId, x);
      }
    }
  }

  /**
   * Each kept entry is the first entry of the input with its userId, and the
   * kept entries appear in the order of those first occurrences.
   */
  lemma {:induction false} DedupKeepsFirstOccurrences(s: seq<SearchUser>)
    ensures forall k :: 0 <= k < |Dedup(s)| ==>
      Seqs.FirstIndexOf(s, SearchUserId, Dedup(s)[k].userId).Some?
      && s[Seqs.FirstIndexOf(s, SearchUserId, Dedup(s)[k].userId).value] == Dedup(s)[k]
    ensures forall k, l :: 0 <= k < l < |Dedup(s)| ==>
      Seqs.FirstIndexOf(s, SearchUserId, Dedup(s)[k].userId).value
        < Seqs.FirstIndexOf(s, SearchUserId, Dedup(s)[l].userId).value
  {
    if |s| > 0 {
      var s' := s[..|s| - 1];
      var x := s[|s| - 1];
      assert s == s' + [x];
      var d := Dedup(s');
      DedupKeepsFirstOccurrences(s');
      forall k | 0 <= k < |d|
        ensures Seqs.FirstIndexOf(s, SearchUserId, d[k].userId) == Seqs.FirstIndexOf(s', SearchUserId, d[k].userId)
      {
        Seqs.FirstIndexOfAppend(s', SearchUserId, x, d[k].userId);
      }
      if !HasId(d, x.userId) {
        DedupKeepsIds(s', x.userId);
        Seqs.FirstIndexOfAppend(s', SearchUserId, x, x.userId);
        assert Dedup(s) == d + [x];
      }
    }
  }

  /** Entries already merged stay in place when more entries follow: post-side entries come first. */
  lemma {:induction false} DedupPrefix(s: seq<SearchUser>, t: seq<SearchUser>)
    ensures Dedup(s) <= Dedup(s + t)
  {
    if |t| == 0 {
      assert s + t == s;
    } else {
      var t' := t[..|t| - 1];
      assert (s + t)[..|s + t| - 1] == s + t';
      DedupPrefix(s, t');
    }
  }

  /** A list whose userIds are already distinct merges to itself. */
  lemma {:induction false} DedupOfDistinct(s: seq<SearchUser>)
    requires Seqs.DistinctKeys(s, SearchUserId)
    ensures Dedup(s) == s
  {
    if |s| > 0 {
      var s' := s[..|s| - 1];
      var x := s[|s| - 1];
      assert Seqs.DistinctKeys(s', SearchUserId);
      DedupOfDistinct(s');
      assert !HasId(s', x.userId);
      assert s == s' + [x];
    }
  }

  /** The merge loop: push each entry whose userId the accumulator does not hold yet. */
  method MergeResults(postUsers: seq<SearchUser>, followerUsers: seq<SearchUser>) returns (merged: seq<SearchUser>)
    ensures merged == Dedup(postUsers + followerUsers)
  {
    var all := postUsers + followerUsers;
    merged := [];
    var i := 0;
    while i < |all|
      invariant 0 <= i <= |all|
      invariant merged == Dedup(all[..i])
    {
      assert all[..i + 1][..i] == all[..i];
      var seen := Seqs.Find(merged, SearchUserId, all[i].userId);
      if seen.None? {
        merged := merged + [all[i]];
      }
      i := i + 1;
    }
    assert all[..|all|] == all;
  }

  /** The first `n` entries, or all of them when there are fewer. */
  function Take(s: seq<SearchUser>, n: nat): (r: seq<SearchUser>)
    ensures |r| <= n && r <= s
    ensures |s| <= n ==> r == s
  {
    if |s| <= n then s else s[..n]
  }

  /** The post side: `$match`, `$group` by author keeping the first post's fields, `$limit: 5`. */
  function PostSideUsers(posts: seq<Post>, q: string): (r: seq<SearchUser>)
    ensures |r| <= SideLimit
    ensures Seqs.DistinctKeys(r, SearchUserId)
    ensures forall k :: 0 <= k < |r| ==>
      exists i :: 0 <= i < |posts| && PostMatches(posts[i], q) && r[k] == ToSearchUser(posts[i])
    ensures forall i :: 0 <= i < |posts| && PostMatches(posts[i], q) ==>
      HasId(r, posts[i].user.userId) || |r| == SideLimit
  {
    var c := Candidates(posts, q);
    var d := Dedup(c);
    var r := Take(d, SideLimit);
    DedupDistinct(c);
    DedupKeepsFirstOccurrences(c);
    assert forall k :: 0 <= k < |r| ==> r[k] == d[k];
    assert forall k :: 0 <= k < |r| ==> r[k] in c;
    forall i | 0 <= i < |posts| && PostMatches(posts[i], q)
      ensures HasId(r, posts[i].user.userId) || |r| == SideLimit
    {
      var u := ToSearchUser(posts[i]);
      assert u in c;
      DedupKeepsIds(c, u.userId);
      if |d| <= SideLimit {
        assert r == d;
      }
    }
    r
  }

  /** The route's merged answer for a cache miss: at most ten entries, no userId twice, post side first. */
  lemma MergedAnswer(posts: seq<Post>, q: string, followerSide: seq<SearchUser>)
    requires |followerSide| <= SideLimit
    ensures var a := PostSideUsers(posts, q);
      var m := Dedup(a + followerSide);
      && |m| <= 2 * SideLimit
      && Seqs.DistinctKeys(m, SearchUserId)
      && a <= m
      && forall id :: HasId(a, id) || HasId(followerSide, id) <==> HasId(m, id)
  {
    var a := PostSideUsers(posts, q);
    DedupDistinct(a + followerSide);
    DedupPrefix(a, followerSide);
    DedupOfDistinct(a);
    forall id
      ensures HasId(a, id) || HasId(followerSide, id) <==> HasId(Dedup(a + followerSide), id)
    {
      DedupKeepsIds(a + followerSide, id);
      HasIdConcat(a, followerSide, id);
    }
  }

  lemma {:induction false} HasIdConcat(a: seq<SearchUser>, b: seq<SearchUser>, id: string)
    ensures HasId(a + b, id) <==> HasId(a, id) || HasId(b, id)
  {
    if |b| > 0 {
      var b' := b[..|b| - 1];
      assert a + b == (a + b') + [b[|b| - 1]];
      assert b == b' + [b[|b| - 1]];
      HasIdConcat(a, b', id);
      Seqs.FirstIndexOfAppend(a + b', SearchUserId, b[|b| - 1], id);
      Seqs.FirstIndexOfAppend(b', SearchUserId, b[|b| - 1], id);
    } else {
      assert a + b == a;
    }
  }

  /** The module-level cache: query to merged result. */
  class SearchCache {
    var entries: map<string, seq<SearchUser>>

    constructor ()
      ensures entries == map[]
    {
      entries := map[];
    }

    /** The five-minute TTL running out for one query. */
    method Expire(q: string)
      modifies this
      ensures entries == old(entries) - {q}
    {
      entries := entries - {q};
    }
  }

  /** GET: validate the query, answer from the cache, or compute, cache and answer the merge. */
  method Search(cache: SearchCache, posts: seq<Post>, queryParam: Option<string>,
                followerSide: seq<SearchUser>, connectFault: bool)
    returns (r: Reply<seq<SearchUser>>)
    requires |followerSide| <= SideLimit
    modifies cache
    ensures connectFault ==> r == Reply(500, Failure(SearchFailed)) && cache.entries == old(cache.entries)
    ensures !connectFault && QueryOf(queryParam) == "" ==>
      r == Reply(400, Failure(QueryRequired)) && cache.entries == old(cache.entries)
    ensures !connectFault && QueryOf(queryParam) != "" && QueryOf(queryParam) in old(cache.entries) ==>
      r == Reply(200, Data(old(cache.entries)[QueryOf(queryParam)])) && cache.entries == old(cache.entries)
    ensures !connectFault && QueryOf(queryParam) != "" && QueryOf(queryParam) !in old(cache.entries) ==>
      && r == Reply(200, Data(Dedup(PostSideUsers(posts, QueryOf(queryParam)) + followerSide)))
      && cache.entries == old(cache.entries)[QueryOf(queryParam) := r.body.value]
      && |r.body.value| <= 2 * SideLimit
      && Seqs.DistinctKeys(r.body.value, SearchUserId)
  {
    if connectFault {
      return Reply(500, Failure(SearchFailed));
    }
    var q := QueryOf(queryParam);
    if q == "" {
      return Reply(400, Failure(QueryRequired));
    }
    if q in cache.entries {
      return Reply(200, Data(cache.entries[q]));
    }
    var postUsers := PostSideUsers(posts, q);
    var merged := MergeResults(postUsers, followerSide);
    MergedAnswer(posts, q, followerSide);
    cache.entries := cache.entries[q := merged];
    r := Reply(200, Data(merged));
  }
}
