/**
 * The delete-post server action (actions/deletePostAction.ts): only the
 * signed-in author of an existing post may delete it. The guards throw; the
 * delete itself only logs a failure.
 */
module DeletePostAction {
  import opened Wrappers
  import opened Records
  import opened Responses
  import Seqs
  import Store

  const NotAuthenticated := "User not authenticated"
  const NotFound := "Post not found"
  const NotOwner := "Post does not belong to user"
  /** `findById` on a string that is not an ObjectId throws a CastError. */
  const CastError := "Cast to ObjectId failed"

  /** The action's outcome as a function of the caller, the id and the stored posts. */
  function Check(posts: seq<Post>, currentUserId: Option<string>, postId: IdText): (o: Option<Outcome>)
    ensures o.None? <==>
      && Present(currentUserId) && postId.ObjectIdText?
      && Seqs.FirstIndexOf(posts, PostId, postId.id).Some?
      && posts[Seqs.FirstIndexOf(posts, PostId, postId.id).value].user.userId == currentUserId.value
    ensures o.Some? ==> o.value.Thrown?
    ensures !Present(currentUserId) ==> o == Some(Thrown(NotAuthenticated))
    ensures Present(currentUserId) && postId.OtherText? ==> o == Some(Thrown(CastError))
    ensures Present(currentUserId) && postId.ObjectIdText? && Seqs.FirstIndexOf(posts, PostId, postId.id).None? ==>
      o == Some(Thrown(NotFound))
    ensures Present(currentUserId) && postId.ObjectIdText? && Seqs.FirstIndexOf(posts, PostId, postId.id).Some?
            && posts[Seqs.FirstIndexOf(posts, PostId, postId.id).value].user.userId != currentUserId.value ==>
      o == Some(Thrown(NotOwner))
  {
    if !Present(currentUserId) then Some(Thrown(NotAuthenticated))
    else match postId
      case OtherText(_) => Some(Thrown(CastError))
      case ObjectIdText(id) =>
        match Seqs.FirstIndexOf(posts, PostId, id)
        case None => Some(Thrown(NotFound))
        case Some(k) =>
          if posts[k].user.userId != currentUserId.value then Some(Thrown(NotOwner))
          else None
  }

  method DeletePost(store: Store.Store, currentUserId: Option<string>, postId: IdText, removeFault: bool)
    returns (o: Outcome)
    requires store.Valid()
    modifies store
    ensures store.Valid()
    ensures store.users == old(store.users) && store.comments == old(store.comments) && store.edges == old(store.edges)
    ensures store.nextId == old(store.nextId) && store.clock == old(store.clock)
    ensures Check(old(store.posts), currentUserId, postId).Some? ==>
      o == Check(old(store.posts), currentUserId, postId).value && store.posts == old(store.posts)
    ensures Check(old(store.posts), currentUserId, postId).None? ==> o == Completed
    ensures Check(old(store.posts), currentUserId, postId).None? && removeFault ==> store.posts == old(store.posts)
    ensures Check(old(store.posts), currentUserId, postId).None? && !removeFault ==>
      && store.posts == old(store.posts)[..Seqs.FirstIndexOf(old(store.posts), PostId, postId.id).value]
                        + old(store.posts)[Seqs.FirstIndexOf(old(store.posts), PostId, postId.id).value + 1..]
      && |store.posts| == |old(store.posts)| - 1
      && (forall p :: p in store.posts ==> p.id != postId.id)
      && (forall p :: p in old(store.posts) && p.id != postId.id ==> p in store.posts)
  {
    var check := Check(store.posts, currentUserId, postId);
    if check.Some? {
      return check.value;
    }
    var k := Seqs.Find(store.posts, PostId, postId.id);
    Seqs.SpliceRemovesKey(store.posts, PostId, k.value);
    Seqs.SpliceElements(store.posts, k.value);
    store.RemovePost(postId.id, removeFault);
    o := Completed;
  }
}
