/**
 * The create-post server action (actions/createPostAction.ts). A signed-in
 * user either reposts an existing post (this takes precedence) or posts new
 * text, with an optional image uploaded to blob storage first. Everything
 * after the sign-in check runs inside a `try` whose `catch` only reports, so
 * the action then always returns normally.
 *
 * The upload's outcome is a parameter (the blob service is not modelled);
 * `connectFault` stands for `connectDB` failing.
 */
module CreatePostAction {
  import opened Wrappers
  import opened Records
  import opened Responses
  import Seqs
  import Store

  const NotAuthenticated := "User not authenticated"
  const RepostPrefix := "REPOSTED:\n"

  /** The signed-in user as the authentication provider reports it. */
  datatype Identity = Identity(id: string, imageUrl: string, firstName: Option<string>, lastName: Option<string>)

  /** What the blob upload produced: the blob's URL, or a failure that is only reported. */
  datatype UploadResult = Uploaded(url: string) | UploadFailed

  /** The form's `image` field: absent, or a file of some size and what uploading it gives. */
  datatype ImageField = NoImage | Image(size: nat, upload: UploadResult)

  /** The body handed to `Post.create`. */
  datatype Draft = Draft(user: Snapshot, text: string, imageUrl: Option<string>)

  /** `user?.id` is truthy. */
  predicate Authenticated(identity: Option<Identity>) {
    identity.Some? && identity.value.id != ""
  }

  /** `repostId` is truthy: present and not the empty string. */
  predicate RepostRequested(repostId: Option<IdText>) {
    repostId.Some? && (repostId.value.OtherText? ==> repostId.value.text != "")
  }

  /**
   * The author embedded in the new post: the stored user with image and
   * names taken from the sign-in identity (unsaved), without the email.
   */
  function AuthorOf(u: UserRecord, who: Identity): (s: Snapshot)
    ensures s.userId == u.userId
    ensures ValidSnapshot(s) <==> u.userId != "" && who.imageUrl != "" && Present(who.firstName)
    ensures s.lastName.Some?
  {
    Limited(u.(userImage := Str(who.imageUrl), firstName := Some(OrEmpty(who.firstName)), lastName := Str(OrEmpty(who.lastName))))
  }

  /** The URL stored with a new (non-repost) post: the uploaded blob's, when a non-empty file was uploaded. */
  function ImageUrlOf(image: ImageField): (r: Option<string>)
    ensures r.Some? <==> image.Image? && image.size > 0 && image.upload.Uploaded? && image.upload.url != ""
    ensures r.Some? ==> r.value == image.upload.url
  {
    if image.Image? && image.size > 0 && image.upload.Uploaded? && image.upload.url != "" then Some(image.upload.url)
    else None
  }

  /** The post the action asks the store to create, if any, for a signed-in user. */
  function DraftFor(users: seq<UserRecord>, posts: seq<Post>, who: Identity, postInput: Option<string>,
                    repostId: Option<IdText>, image: ImageField): (d: Option<Draft>)
    ensures Seqs.FirstIndexOf(users, UserIdOf, who.id).None? ==> d.None?
    ensures d.Some? ==> d.value.user == AuthorOf(users[Seqs.FirstIndexOf(users, UserIdOf, who.id).value], who)
    ensures d.Some? ==> d.value.text != ""
    ensures Seqs.FirstIndexOf(users, UserIdOf, who.id).Some? && RepostRequested(repostId) ==>
      && (d.Some? <==> repostId.value.ObjectIdText? && exists i :: 0 <= i < |posts| && posts[i].id == repostId.value.id)
      && (d.Some? ==>
            var original := posts[Seqs.FirstIndexOf(posts, PostId, repostId.value.id).value];
            && d.value.text == RepostPrefix + original.text
            && d.value.imageUrl == (if Present(original.imageUrl) then original.imageUrl else None))
    ensures Seqs.FirstIndexOf(users, UserIdOf, who.id).Some? && !RepostRequested(repostId) ==>
      && (d.Some? <==> Present(postInput))
      && (d.Some? ==> d.value.text == postInput.value && d.value.imageUrl == ImageUrlOf(image))
  {
    match Seqs.FirstIndexOf(users, UserIdOf, who.id)
    case None => None
    case Some(k) =>
      var author := AuthorOf(users[k], who);
      if RepostRequested(repostId) then
        match repostId.value
        case OtherText(_) => None
        case ObjectIdText(id) =>
          match Seqs.FirstIndexOf(posts, PostId, id)
          case None => None
          case Some(j) =>
            var original := posts[j];
            Some(Draft(author, RepostPrefix + original.text, if Present(original.imageUrl) then original.imageUrl else None))
      else if Present(postInput) then
        Some(Draft(author, postInput.value, ImageUrlOf(image)))
      else None
  }

  /** The posts after the action: the draft is stored when it passes PostSchema. */
  function PostsAfter(posts: seq<Post>, d: Option<Draft>, id: Id, now: int): (r: seq<Post>)
    ensures |r| == |posts| || |r| == |posts| + 1
    ensures r[..|posts|] == posts
    ensures |r| == |posts| + 1 <==> d.Some? && ValidSnapshot(d.value.user) && d.value.text != ""
  {
    if d.Some? && ValidSnapshot(d.value.user) && d.value.text != "" then
      posts + [Post(id, d.value.user, d.value.text, d.value.imageUrl, [], [], now, now)]
    else posts
  }

  /** The action: refuse an unauthenticated caller, else create the draft (if any) and return normally. */
  method CreatePost(store: Store.Store, identity: Option<Identity>, postInput: Option<string>,
                    repostId: Option<IdText>, image: ImageField, connectFault: bool)
    returns (o: Outcome)
    requires store.Valid()
    modifies store
    ensures store.Valid()
    ensures store.users == old(store.users) && store.comments == old(store.comments) && store.edges == old(store.edges)
    ensures !Authenticated(identity) ==> o == Thrown(NotAuthenticated) && store.posts == old(store.posts) && store.nextId == old(store.nextId) && store.clock == old(store.clock)
    ensures Authenticated(identity) && connectFault ==> o == Completed && store.posts == old(store.posts) && store.nextId == old(store.nextId) && store.clock == old(store.clock)
    ensures |store.posts| == |old(store.posts)| ==> store.nextId == old(store.nextId) && store.clock == old(store.clock)
    ensures Authenticated(identity) && !connectFault ==>
      && o == Completed
      && store.posts == PostsAfter(old(store.posts),
                                   DraftFor(old(store.users), old(store.posts), identity.value, postInput, repostId, image),
                                   old(store.nextId), old(store.clock))
  {
    if !Authenticated(identity) {
      return Thrown(NotAuthenticated);
    }
    o := Completed;
    if connectFault {
      return;
    }
    var who := identity.value;
    var found := Seqs.Find(store.users, UserIdOf, who.id);
    if found.None? {
      return;
    }
    var author := AuthorOf(store.users[found.value], who);
    var draft: Draft;
    if RepostRequested(repostId) {
      if repostId.value.OtherText? {
        return;
      }
      var original := Seqs.Find(store.posts, PostId, repostId.value.id);
      if original.None? {
        return;
      }
      var p := store.posts[original.value];
      draft := Draft(author, RepostPrefix + p.text, if Present(p.imageUrl) then p.imageUrl else None);
    } else if Present(postInput) {
      draft := Draft(author, postInput.value, ImageUrlOf(image));
    } else {
      return;
    }
    var created := store.CreatePost(draft.user, draft.text, draft.imageUrl);
  }
}
