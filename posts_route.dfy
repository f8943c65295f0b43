/**
 * The posts route (app/api/posts/route.ts): create a post from a request
 * body, and list posts, newest first, optionally only those of one author.
 *
 * `connectFault` stands for a failure inside the handler's `try` before the
 * store is touched, which answers 500.
 */
module PostsRoute {
  import opened Wrappers
  import opened Records
  import opened Responses
  import opened Seqs
  import Store

  const Created := "Post created successfully"
  const CreateFailed := "An error occured while creating the post"
  const FetchFailed := "An error occured while fetching posts"

  /** The posts whose author is `userId`, in stored order: `find({ "user.userId": userId })`. */
  function PostsBy(posts: seq<Post>, userId: string): (r: seq<Post>)
    ensures forall p :: multiset(r)[p] == if p.user.userId == userId then multiset(posts)[p] else 0
    ensures forall p :: p in r <==> p in posts && p.user.userId == userId
  {
    if |posts| == 0 then []
    else
      assert posts == [posts[0]] + posts[1..];
      (if posts[0].user.userId == userId then [posts[0]] else []) + PostsBy(posts[1..], userId)
  }

  /**
   * GET: every post, or those of `user_id` when it is given, sorted by
   * creation time, newest first.
   */
  function GetPosts(posts: seq<Post>, userIdParam: Option<string>, connectFault: bool): (r: Reply<seq<Post>>)
    ensures connectFault ==> r == Reply(500, Failure(FetchFailed))
    ensures !connectFault ==> r.status == 200 && r.body.Data?
    ensures r.body.Data? ==> SortedDesc(r.body.value, PostCreatedAt)
    ensures r.body.Data? && !Present(userIdParam) ==> multiset(r.body.value) == multiset(posts)
    ensures r.body.Data? && Present(userIdParam) ==>
      forall p :: multiset(r.body.value)[p] == if p.user.userId == userIdParam.value then multiset(posts)[p] else 0
  {
    if connectFault then Reply(500, Failure(FetchFailed))
    else
      var selected := if Present(userIdParam) then PostsBy(posts, userIdParam.value) else posts;
      Reply(200, Data(SortDesc(selected, PostCreatedAt)))
  }

  /**
   * POST: create a post from the body's user snapshot and text; the image URL
   * is stored only when it is a non-empty string. A schema failure answers 500.
   */
  method CreatePost(store: Store.Store, user: Snapshot, text: string, imageUrl: Option<string>, connectFault: bool)
    returns (r: Reply<Post>)
    requires store.Valid()
    modifies store
    ensures store.Valid()
    ensures store.users == old(store.users) && store.comments == old(store.comments) && store.edges == old(store.edges)
    ensures r.status == 200 <==> !connectFault && ValidSnapshot(user) && text != ""
    ensures r.status != 200 ==> r == Reply(500, Failure(CreateFailed)) && store.posts == old(store.posts) && store.nextId == old(store.nextId) && store.clock == old(store.clock)
    ensures r.status == 200 ==>
      && r.body.Message? && r.body.text == Created && r.body.payload.Some?
      && store.posts == old(store.posts) + [r.body.payload.value]
      && r.body.payload.value.user == user && r.body.payload.value.text == text
      && r.body.payload.value.imageUrl == (if Present(imageUrl) then imageUrl else None)
      && r.body.payload.value.comments == [] && r.body.payload.value.likes == []
  {
    if connectFault {
      return Reply(500, Failure(CreateFailed));
    }
    var post := store.CreatePost(user, text, if Present(imageUrl) then imageUrl else None);
    if post.Err? {
      return Reply(500, Failure(CreateFailed));
    }
    r := Reply(200, Message(Created, Some(post.value)));
  }
}
