/**
 * The counts shown on the home page's user card (components/UserInformation.tsx):
 * how many of the feed's posts the signed-in user wrote, and how many
 * comments on those feed posts they wrote. Without a signed-in user
 * (`user?.id` undefined) no post or comment matches.
 */
module UserInformation {
  import opened Wrappers
  import opened Records
  import Seqs
  import PostQueries

  /** A feed post as the card reads it: its author's id and its comments, which may be absent. */
  datatype FeedPost = FeedPost(authorId: string, comments: Option<seq<Comment>>)

  function FeedAuthorId(p: FeedPost): string { p.authorId }

  /** A post of the feed produced by `getAllPosts`, whose comment list is always present. */
  function FromView(v: PostQueries.PostView): FeedPost {
    FeedPost(v.user.userId, Some(v.comments))
  }

  /** `posts.filter(post => post.user.userId === user?.id).length`. */
  function UserPostCount(posts: seq<FeedPost>, currentUserId: Option<string>): (n: nat)
    ensures n <= |posts|
    ensures currentUserId.None? ==> n == 0
    ensures currentUserId.Some? ==> n == multiset(Seqs.Keys(posts, FeedAuthorId))[currentUserId.value]
  {
    if |posts| == 0 then 0
    else
      assert Seqs.Keys(posts, FeedAuthorId) == [posts[0].authorId] + Seqs.Keys(posts[1..], FeedAuthorId);
      (if currentUserId.Some? && posts[0].authorId == currentUserId.value then 1 else 0)
        + UserPostCount(posts[1..], currentUserId)
  }

  /** The comments on one post written by the user; an absent list gives none. */
  function OwnComments(comments: Option<seq<Comment>>, currentUserId: Option<string>): (r: seq<Comment>)
    ensures comments.None? || currentUserId.None? ==> r == []
    ensures comments.Some? ==> |r| <= |comments.value|
    ensures forall c :: c in r <==>
      comments.Some? && currentUserId.Some? && c in comments.value && c.user.userId == currentUserId.value
  {
    if comments.None? || currentUserId.None? then []
    else Filter(comments.value, currentUserId.value)
  }

  function Filter(cs: seq<Comment>, u: string): (r: seq<Comment>)
    ensures |r| <= |cs|
    ensures forall c :: c in r <==> c in cs && c.user.userId == u
  {
    if |cs| == 0 then []
    else
      assert forall i :: 0 < i < |cs| ==> cs[i] == cs[1..][i - 1];
      (if cs[0].user.userId == u then [cs[0]] else []) + Filter(cs[1..], u)
  }

  /** `posts.flatMap(post => post?.comments?.filter(c => c.user.userId === user?.id) || [])`. */
  function UserComments(posts: seq<FeedPost>, currentUserId: Option<string>): (r: seq<Comment>)
    ensures forall c :: c in r <==>
      exists i :: 0 <= i < |posts| && c in OwnComments(posts[i].comments, currentUserId)
  {
    if |posts| == 0 then []
    else
      assert forall i :: 0 < i < |posts| ==> posts[i] == posts[1..][i - 1];
      OwnComments(posts[0].comments, currentUserId) + UserComments(posts[1..], currentUserId)
  }

  /** The number of comments on the feed's posts, counting an absent list as empty. */
  function TotalComments(posts: seq<FeedPost>): nat {
    if |posts| == 0 then 0
    else (if posts[0].comments.Some? then |posts[0].comments.value| else 0) + TotalComments(posts[1..])
  }

  /** The user's comment count never exceeds the feed's comment count, and is zero when nobody is signed in. */
  lemma {:induction false} UserCommentCountBounded(posts: seq<FeedPost>, currentUserId: Option<string>)
    ensures |UserComments(posts, currentUserId)| <= TotalComments(posts)
    ensures currentUserId.None? ==> |UserComments(posts, currentUserId)| == 0
  {
    if |posts| > 0 {
      UserCommentCountBounded(posts[1..], currentUserId);
    }
  }
}
