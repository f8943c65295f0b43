/**
 * The users directory route (app/api/users/route.ts): one entry per author
 * found among the posts, with how many posts they wrote, how many comments
 * those posts hold, the display fields of their first post, and whether the
 * current user follows them.
 *
 * The `$group` stage is modelled in order of each author's first post; the
 * source leaves the group order to the store.
 */
module UsersRoute {
  import opened Wrappers
  import opened Records
  import opened Responses
  import Seqs
  import FollowGraph

  const CurrentUserRequired := "Current user ID is required"
  const FetchFailed := "An error occurred while fetching users"

  datatype DirectoryEntry = DirectoryEntry(
    id: string,
    postCount: nat,
    commentCount: nat,
    userImage: Option<string>,
    firstName: Option<string>,
    lastName: Option<string>,
    isFollowing: bool)

  function EntryId(e: DirectoryEntry): string { e.id }

  /** The `$group` keys: each author once, in order of their first post. */
  function Authors(posts: seq<Post>): (r: seq<string>)
    ensures forall u :: u in r <==> exists i :: 0 <= i < |posts| && posts[i].user.userId == u
    ensures forall k, l :: 0 <= k < l < |r| ==> r[k] != r[l]
  {
    if |posts| == 0 then []
    else
      var last := posts[|posts| - 1];
      var a := Authors(posts[..|posts| - 1]);
      assert forall i :: 0 <= i < |posts| - 1 ==> posts[..|posts| - 1][i] == posts[i];
      if last.user.userId in a then a else a + [last.user.userId]
  }

  /** What a post adds to a sum: `$sum: 1` or `$sum: { $size: "$comments" }`. */
  function One(p: Post): nat { 1 }
  function CommentsSize(p: Post): nat { |p.comments| }

  /** The sum of `w` over the posts written by `u`. */
  function SumBy(posts: seq<Post>, u: string, w: Post -> nat): nat {
    if |posts| == 0 then 0
    else SumBy(posts[..|posts| - 1], u, w) + (if posts[|posts| - 1].user.userId == u then w(posts[|posts| - 1]) else 0)
  }

  /** The sum of `w` over all posts. */
  function Total(posts: seq<Post>, w: Post -> nat): nat {
    if |posts| == 0 then 0 else Total(posts[..|posts| - 1], w) + w(posts[|posts| - 1])
  }

  /** The sum of the per-author sums over a list of authors. */
  function SumOver(authors: seq<string>, posts: seq<Post>, w: Post -> nat): nat {
    if |authors| == 0 then 0 else SumBy(posts, authors[0], w) + SumOver(authors[1..], posts, w)
  }

  /** The number of posts by `u` is the number of times `u` occurs as an author. */
  lemma {:induction false} PostCountIsOccurrences(posts: seq<Post>, u: string)
    ensures SumBy(posts, u, One) == multiset(Seqs.Keys(posts, AuthorId))[u]
  {
    if |posts| > 0 {
      var p' := posts[..|posts| - 1];
      PostCountIsOccurrences(p', u);
      assert Seqs.Keys(posts, AuthorId) == Seqs.Keys(p', AuthorId) + [AuthorId(posts[|posts| - 1])];
    }
  }

  lemma {:induction false} SumByNonAuthor(posts: seq<Post>, u: string, w: Post -> nat)
    requires forall i :: 0 <= i < |posts| ==> posts[i].user.userId != u
    ensures SumBy(posts, u, w) == 0
  {
    if |posts| > 0 {
      SumByNonAuthor(posts[..|posts| - 1], u, w);
    }
  }

  lemma {:induction false} SumOverAppendAuthor(authors: seq<string>, u: string, posts: seq<Post>, w: Post -> nat)
    ensures SumOver(authors + [u], posts, w) == SumOver(authors, posts, w) + SumBy(posts, u, w)
  {
    if |authors| > 0 {
      assert (authors + [u])[1..] == authors[1..] + [u];
      SumOverAppendAuthor(authors[1..], u, posts, w);
    } else {
      assert authors + [u] == [u];
    }
  }

  lemma {:induction false} SumOverAppendPost(authors: seq<string>, posts: seq<Post>, x: Post, w: Post -> nat)
    requires forall k, l :: 0 <= k < l < |authors| ==> authors[k] != authors[l]
    ensures SumOver(authors, posts + [x], w) ==
      SumOver(authors, posts, w) + (if x.user.userId in authors then w(x) else 0)
  {
    if |authors| > 0 {
      assert (posts + [x])[..|posts + [x]| - 1] == posts;
      SumOverAppendPost(authors[1..], posts, x, w);
      assert x.user.userId in authors <==> x.user.userId == authors[0] || x.user.userId in authors[1..];
    }
  }

  /**
   * Every post is counted under exactly one entry: the per-author sums add up
   * to the sum over all posts (for post counts and for comment counts alike).
   */
  lemma {:induction false} SumsAddUp(posts: seq<Post>, w: Post -> nat)
    ensures SumOver(Authors(posts), posts, w) == Total(posts, w)
  {
    if |posts| > 0 {
      var p' := posts[..|posts| - 1];
      var x := posts[|posts| - 1];
      assert posts == p' + [x];
      var a' := Authors(p');
      SumsAddUp(p', w);
      SumOverAppendPost(a', p', x, w);
      if x.user.userId !in a' {
        SumOverAppendAuthor(a', x.user.userId, posts, w);
        SumByNonAuthor(p', x.user.userId, w);
      }
    }
  }

  /** The ids the current user follows: `Followers.find({ "follower.userId": current })` mapped to the following side. */
  function FollowedIds(edges: seq<FollowEdge>, current: string): (r: seq<string>)
    ensures forall v :: v in r <==> FollowGraph.HasEdge(edges, current, v)
  {
    if |edges| == 0 then []
    else
      var rest := FollowedIds(edges[1..], current);
      assert forall i :: 0 < i < |edges| ==> edges[i] == edges[1..][i - 1];
      if edges[0].follower.userId == current then [edges[0].following.userId] + rest else rest
  }

  /** The entry for one author. */
  function EntryFor(posts: seq<Post>, u: string, followed: seq<string>): DirectoryEntry
    requires u in Authors(posts)
  {
    var first := posts[Seqs.FirstIndexOf(posts, AuthorId, u).value].user;
    DirectoryEntry(u, SumBy(posts, u, One), SumBy(posts, u, CommentsSize),
                   first.userImage, first.firstName, first.lastName, u in followed)
  }

  /** The grouped entries, one per author in order of their first post, each flagged when its id is in `followed`. */
  function Directory(posts: seq<Post>, followed: seq<string>): (es: seq<DirectoryEntry>)
    ensures Seqs.Keys(es, EntryId) == Authors(posts)
    ensures forall k :: 0 <= k < |es| ==>
      && es[k].postCount == SumBy(posts, es[k].id, One)
      && es[k].commentCount == SumBy(posts, es[k].id, CommentsSize)
      && (es[k].isFollowing <==> es[k].id in followed)
      && Seqs.FirstIndexOf(posts, AuthorId, es[k].id).Some?
      && es[k].firstName == posts[Seqs.FirstIndexOf(posts, AuthorId, es[k].id).value].user.firstName
      && es[k].lastName == posts[Seqs.FirstIndexOf(posts, AuthorId, es[k].id).value].user.lastName
      && es[k].userImage == posts[Seqs.FirstIndexOf(posts, AuthorId, es[k].id).value].user.userImage
  {
    var authors := Authors(posts);
    var es := seq(|authors|, k requires 0 <= k < |authors| => EntryFor(posts, authors[k], followed));
    assert forall k :: 0 <= k < |es| ==> es[k].id == authors[k];
    assert Seqs.Keys(es, EntryId) == authors;
    forall k | 0 <= k < |es|
      ensures Seqs.FirstIndexOf(posts, AuthorId, es[k].id).Some?
    {
      assert authors[k] in authors;
      var i :| 0 <= i < |posts| && posts[i].user.userId == authors[k];
      assert AuthorId(posts[i]) == authors[k];
    }
    es
  }

  /** GET: the directory as seen by `current_user_id`. */
  function GetUsers(posts: seq<Post>, edges: seq<FollowEdge>, currentUserIdParam: Option<string>, connectFault: bool)
    : (r: Reply<seq<DirectoryEntry>>)
    ensures connectFault ==> r == Reply(500, Failure(FetchFailed))
    ensures !connectFault && !Present(currentUserIdParam) ==> r == Reply(400, Failure(CurrentUserRequired))
    ensures !connectFault && Present(currentUserIdParam) ==>
      r == Reply(200, Data(Directory(posts, FollowedIds(edges, currentUserIdParam.value))))
    ensures r.body.Data? ==>
      var es := r.body.value;
      && Seqs.Keys(es, EntryId) == Authors(posts)
      && forall k :: 0 <= k < |es| ==>
        && es[k].postCount == multiset(Seqs.Keys(posts, AuthorId))[es[k].id]
        && es[k].commentCount == SumBy(posts, es[k].id, CommentsSize)
        && (es[k].isFollowing <==> FollowGraph.HasEdge(edges, currentUserIdParam.value, es[k].id))
        && es[k].firstName == posts[Seqs.FirstIndexOf(posts, AuthorId, es[k].id).value].user.firstName
        && es[k].lastName == posts[Seqs.FirstIndexOf(posts, AuthorId, es[k].id).value].user.lastName
        && es[k].userImage == posts[Seqs.FirstIndexOf(posts, AuthorId, es[k].id).value].user.userImage
  {
    if connectFault then Reply(500, Failure(FetchFailed))
    else if !Present(currentUserIdParam) then Reply(400, Failure(CurrentUserRequired))
    else
      var es := Directory(posts, FollowedIds(edges, currentUserIdParam.value));
      forall k | 0 <= k < |es|
        ensures es[k].postCount == multiset(Seqs.Keys(posts, AuthorId))[es[k].id]
      {
        PostCountIsOccurrences(posts, es[k].id);
      }
      Reply(200, Data(es))
  }

  function PostCountSum(es: seq<DirectoryEntry>): nat {
    if |es| == 0 then 0 else es[0].postCount + PostCountSum(es[1..])
  }

  function CommentCountSum(es: seq<DirectoryEntry>): nat {
    if |es| == 0 then 0 else es[0].commentCount + CommentCountSum(es[1..])
  }

  lemma {:induction false} EntrySums(es: seq<DirectoryEntry>, posts: seq<Post>)
    requires forall k :: 0 <= k < |es| ==>
      es[k].postCount == SumBy(posts, es[k].id, One) && es[k].commentCount == SumBy(posts, es[k].id, CommentsSize)
    ensures PostCountSum(es) == SumOver(Seqs.Keys(es, EntryId), posts, One)
    ensures CommentCountSum(es) == SumOver(Seqs.Keys(es, EntryId), posts, CommentsSize)
  {
    if |es| > 0 {
      EntrySums(es[1..], posts);
      assert Seqs.Keys(es, EntryId)[1..] == Seqs.Keys(es[1..], EntryId);
    }
  }

  /**
   * Summed over the whole directory, the post counts give the number of posts
   * and the comment counts the number of comment references: no post is
   * counted twice or left out.
   */
  lemma DirectoryTotals(posts: seq<Post>, followed: seq<string>)
    ensures PostCountSum(Directory(posts, followed)) == |posts|
    ensures CommentCountSum(Directory(posts, followed)) == Total(posts, CommentsSize)
  {
    EntrySums(Directory(posts, followed), posts);
    SumsAddUp(posts, One);
    SumsAddUp(posts, CommentsSize);
    TotalOne(posts);
  }

  lemma {:induction false} TotalOne(posts: seq<Post>)
    ensures Total(posts, One) == |posts|
  {
    if |posts| > 0 {
      TotalOne(posts[..|posts| - 1]);
    }
  }
}
