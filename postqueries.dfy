/**
 * The read side of mongodb/models/post.ts: `getAllComments`, `getAllPosts` and
 * `getPostById`. Each populates a post's comment ids into comment documents,
 * newest first, and resolves to nothing (undefined) when anything fails.
 */
module PostQueries {
  import opened Wrappers
  import opened Records
  import opened Seqs

  /** A post as read back, with its comment ids replaced by the comment documents. */
  datatype PostView = PostView(
    id: Id,
    user: Snapshot,
    text: string,
    imageUrl: Option<string>,
    comments: seq<Comment>,
    likes: seq<string>,
    createdAt: int,
    updatedAt: int)

  function ViewCreatedAt(v: PostView): int { v.createdAt }

  /** The comment documents whose id is referenced; an id without a document yields nothing. */
  function Referenced(comments: seq<Comment>, ids: seq<Id>): (r: seq<Comment>)
    ensures forall c :: c in r <==> c in comments && c.id in ids
    ensures |r| <= |comments|
  {
    if |comments| == 0 then []
    else (if comments[0].id in ids then [comments[0]] else []) + Referenced(comments[1..], ids)
  }

  /** `populate({ path: "comments", options: { sort: { createdAt: -1 } } })` on one post. */
  function Populate(p: Post, comments: seq<Comment>): (v: PostView)
    ensures SortedDesc(v.comments, CommentCreatedAt)
    ensures forall c :: c in v.comments <==> c in comments && c.id in p.comments
    ensures v.id == p.id && v.createdAt == p.createdAt
  {
    var cs := SortDesc(Referenced(comments, p.comments), CommentCreatedAt);
    assert forall c :: c in cs <==> c in multiset(cs);
    PostView(p.id, p.user, p.text, p.imageUrl, cs, p.likes, p.createdAt, p.updatedAt)
  }

  function PopulateAll(posts: seq<Post>, comments: seq<Comment>): (r: seq<PostView>)
    ensures |r| == |posts|
    ensures forall i :: 0 <= i < |posts| ==> r[i] == Populate(posts[i], comments)
  {
    seq(|posts|, i requires 0 <= i < |posts| => Populate(posts[i], comments))
  }

  /** `getAllComments`: the post's comments newest first; undefined when the query fails. */
  function GetAllComments(p: Post, comments: seq<Comment>, fault: bool): (r: Option<seq<Comment>>)
    ensures r.None? <==> fault
    ensures r.Some? ==> SortedDesc(r.value, CommentCreatedAt)
    ensures r.Some? ==> forall c :: c in r.value <==> c in comments && c.id in p.comments
  {
    if fault then None else Some(Populate(p, comments).comments)
  }

  /**
   * `getAllPosts`: every post, newest first, each with its comments newest first;
   * undefined when the query fails.
   */
  function GetAllPosts(posts: seq<Post>, comments: seq<Comment>, fault: bool): (r: Option<seq<PostView>>)
    ensures r.None? <==> fault
    ensures r.Some? ==> SortedDesc(r.value, ViewCreatedAt)
    ensures r.Some? ==> multiset(r.value) == multiset(PopulateAll(posts, comments))
    ensures r.Some? ==> forall v :: v in r.value ==> SortedDesc(v.comments, CommentCreatedAt)
  {
    if fault then None
    else
      var all := PopulateAll(posts, comments);
      var sorted := SortDesc(all, ViewCreatedAt);
      assert forall v :: v in sorted ==> v in multiset(all);
      Some(sorted)
  }

  /**
   * `getPostById`: a text that is not an ObjectId, or an id no post has, resolves
   * to undefined (the thrown error is caught and logged); otherwise the post with
   * its comments newest first.
   */
  function GetPostById(posts: seq<Post>, comments: seq<Comment>, postId: IdText, fault: bool): (r: Option<PostView>)
    ensures r.Some? <==> !fault && postId.ObjectIdText? && exists i :: 0 <= i < |posts| && posts[i].id == postId.id
    ensures r.Some? ==> exists i :: 0 <= i < |posts| && posts[i].id == postId.id && r.value == Populate(posts[i], comments)
    ensures r.Some? ==> SortedDesc(r.value.comments, CommentCreatedAt)
  {
    if fault || postId.OtherText? then None
    else match FirstIndexOf(posts, PostId, postId.id)
      case None => None
      case Some(i) => Some(Populate(posts[i], comments))
  }
}
