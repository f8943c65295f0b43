/**
 * The create-comment server action (actions/createCommentAction.ts). Its
 * guards throw, in this order: no post id, no comment text, no signed-in user,
 * no stored user, an id that is not an ObjectId, no such post. After them the
 * comment is added with `commentOnPost`, which only logs its own failures, so
 * the action's own `catch` never runs.
 */
module CreateCommentAction {
  import opened Wrappers
  import opened Records
  import opened Responses
  import Seqs
  import Store

  const PostIdRequired := "Post ID is required"
  const InputRequired := "Comment input is required"
  const NotAuthenticated := "User not authenticated"
  const UserNotFound := "User not found in database"
  const NotFound := "Post not found"
  /** `findById` on a string that is not an ObjectId throws a CastError. */
  const CastError := "Cast to ObjectId failed"

  /** The guard that stops the action, if any. */
  function Check(users: seq<UserRecord>, posts: seq<Post>, currentUserId: Option<string>,
                 postId: IdText, commentInput: Option<string>): (o: Option<Outcome>)
    ensures o.Some? ==> o.value.Thrown?
    ensures postId == OtherText("") ==> o == Some(Thrown(PostIdRequired))
    ensures postId != OtherText("") && !Present(commentInput) ==> o == Some(Thrown(InputRequired))
    ensures postId != OtherText("") && Present(commentInput) && !Present(currentUserId) ==> o == Some(Thrown(NotAuthenticated))
    ensures o.None? <==>
      && postId.ObjectIdText? && Present(commentInput) && Present(currentUserId)
      && Seqs.FirstIndexOf(users, UserIdOf, currentUserId.value).Some?
      && Seqs.FirstIndexOf(posts, PostId, postId.id).Some?
    ensures (&& Present(commentInput) && Present(currentUserId) && postId != OtherText("")
             && Seqs.FirstIndexOf(users, UserIdOf, currentUserId.value).None?) ==>
      o == Some(Thrown(UserNotFound))
    ensures (&& Present(commentInput) && Present(currentUserId) && postId.OtherText? && postId != OtherText("")
             && Seqs.FirstIndexOf(users, UserIdOf, currentUserId.value).Some?) ==>
      o == Some(Thrown(CastError))
    ensures (&& Present(commentInput) && Present(currentUserId) && postId.ObjectIdText?
             && Seqs.FirstIndexOf(users, UserIdOf, currentUserId.value).Some?
             && Seqs.FirstIndexOf(posts, PostId, postId.id).None?) ==>
      o == Some(Thrown(NotFound))
  {
    if postId == OtherText("") then Some(Thrown(PostIdRequired))
    else if !Present(commentInput) then Some(Thrown(InputRequired))
    else if !Present(currentUserId) then Some(Thrown(NotAuthenticated))
    else if Seqs.FirstIndexOf(users, UserIdOf, currentUserId.value).None? then Some(Thrown(UserNotFound))
    else match postId
      case OtherText(_) => Some(Thrown(CastError))
      case ObjectIdText(id) =>
        if Seqs.FirstIndexOf(posts, PostId, id).None? then Some(Thrown(NotFound)) else None
  }

  /** The comment body: the stored user as loaded (without email) and the text. */
  function InputFor(u: UserRecord, text: string): (c: CommentInput)
    ensures ValidCommentInput(c) <==>
      u.userId != "" && Present(u.firstName) && Present(AsOption(u.userImage)) && text != ""
    ensures c.user.userId == u.userId && c.text == text
  {
    CommentInput(Limited(WithDefaults(u)), text)
  }

  method CreateComment(store: Store.Store, currentUserId: Option<string>, postId: IdText,
                       commentInput: Option<string>, saveFault: bool)
    returns (o: Outcome)
    requires store.Valid()
    modifies store
    ensures store.Valid()
    ensures store.users == old(store.users) && store.edges == old(store.edges)
    ensures var check := Check(old(store.users), old(store.posts), currentUserId, postId, commentInput);
      check.Some? ==> o == check.value && store.posts == old(store.posts) && store.comments == old(store.comments) && store.nextId == old(store.nextId) && store.clock == old(store.clock)
    ensures var check := Check(old(store.users), old(store.posts), currentUserId, postId, commentInput);
      check.None? ==>
        var u := old(store.users)[Seqs.FirstIndexOf(old(store.users), UserIdOf, currentUserId.value).value];
        var k := Seqs.FirstIndexOf(old(store.posts), PostId, postId.id).value;
        var input := InputFor(u, commentInput.value);
        && o == Completed
        && (!ValidCommentInput(input) ==>
              store.posts == old(store.posts) && store.comments == old(store.comments) && store.nextId == old(store.nextId) && store.clock == old(store.clock))
        && (ValidCommentInput(input) ==>
              && store.comments == old(store.comments) + [NewComment(old(store.nextId), input, old(store.clock))]
              && store.posts == if saveFault then old(store.posts)
                                else old(store.posts)[k := old(store.posts)[k].(comments := old(store.posts)[k].comments + [old(store.nextId)],
                                                                                   updatedAt := old(store.clock))])
  {
    var check := Check(store.users, store.posts, currentUserId, postId, commentInput);
    if check.Some? {
      return check.value;
    }
    var u := Seqs.Find(store.users, UserIdOf, currentUserId.value);
    var input := InputFor(store.users[u.value], commentInput.value);
    store.CommentOnPost(postId.id, input, saveFault);
    o := Completed;
  }
}
