/**
 * The like button of a post (components/PostOptions.tsx): whether the
 * signed-in user likes the post, the likes list shown, and the optimistic
 * toggle that updates both before the request and restores them when the
 * request or the refetch answers with an error status. A request that
 * rejects, or a refetched body that does not parse, throws without
 * restoring anything.
 *
 * The handler's awaits split it in two: `BeginToggle` runs up to the
 * request, `FinishToggle` applies the responses. The likes list of a stored
 * post is always an array (Mongoose array paths default to []).
 */
module PostOptions {
  import opened Wrappers
  import opened Records
  import opened Responses
  import Likes

  const NotAuthenticated := "User not authenticated"
  const UnlikeFailed := "Failed to Unlike post"
  const LikeFailed := "Failed to Like post"
  const FetchFailed := "Failed to fetch likes"

  /** Which route the toggle posts to. */
  datatype Endpoint = LikeEndpoint | UnlikeEndpoint

  /** How the like or unlike request ended: a response with its `ok` flag, or a rejection with its error. */
  datatype Request = Answered(ok: bool) | Rejected(error: string)

  /**
   * How the refetch of the likes ended: a parsed list, a response that is not
   * `ok`, or an error thrown by `fetch` or by parsing the body.
   */
  datatype Refetch = Refetched(likes: seq<string>) | RefetchNotOk | RefetchRejected(error: string)

  /** What the handler keeps across its awaits: the state before the click, the user and the route used. */
  datatype Pending = Pending(originalLiked: bool, originalLikes: seq<string>, userId: string, endpoint: Endpoint)

  /** The likes shown right after the click: without the user if they liked the post, else with the user appended. */
  function OptimisticLikes(liked: bool, likes: seq<string>, userId: string): (r: seq<string>)
    ensures liked ==> userId !in r && forall v :: v != userId ==> (v in r <==> v in likes)
    ensures !liked ==> r == likes + [userId]
  {
    if liked then Likes.Pull(likes, userId) else likes + [userId]
  }

  /**
   * When the shown list was the stored one, the optimistic list is what the
   * server stores: `$pull` for an unlike, and `$addToSet` for a like of a
   * post the user had not liked.
   */
  lemma OptimisticMatchesServer(likes: seq<string>, userId: string)
    ensures OptimisticLikes(true, likes, userId) == Likes.Pull(likes, userId)
    ensures userId !in likes ==> OptimisticLikes(false, likes, userId) == Likes.AddToSet(likes, userId)
  {
  }

  /** Liking and then unliking, both optimistically, gives back a list without the user. */
  lemma OptimisticRoundTrip(likes: seq<string>, userId: string)
    requires userId !in likes
    ensures OptimisticLikes(true, OptimisticLikes(false, likes, userId), userId) == likes
  {
    Likes.PullAppend(likes, [userId], userId);
    Likes.PullAbsent(likes, userId);
    assert Likes.Pull([userId], userId) == [];
  }

  /** The count label: "like" for exactly one like, "likes" otherwise. */
  function LikeLabel(n: nat): (r: string)
    ensures r == "like" <==> n == 1
    ensures r != "like" ==> r == "likes"
  {
    if n == 1 then "like" else "likes"
  }

  class LikeButton {
    var liked: bool
    var likes: seq<string>

    /** The initial state: not liked, and the post's likes. */
    constructor (postLikes: seq<string>)
      ensures !liked && likes == postLikes
    {
      liked := false;
      likes := postLikes;
    }

    /** The effect run on load: set `liked` when the user's id is among the post's likes; it never clears it. */
    method SyncLiked(postLikes: seq<string>, userId: Option<string>)
      modifies this
      ensures likes == old(likes)
      ensures liked == (old(liked) || (Present(userId) && userId.value in postLikes))
    {
      if Present(userId) && userId.value in postLikes {
        liked := true;
      }
    }

    /**
     * The click, up to the request: refuse a signed-out user without any
     * change, else flip `liked`, show the optimistic list, and choose the
     * unlike route exactly when the post was liked before the click.
     */
    method BeginToggle(userId: Option<string>) returns (r: Result<Pending>)
      modifies this
      ensures !Present(userId) ==> r == Err(NotAuthenticated) && liked == old(liked) && likes == old(likes)
      ensures Present(userId) ==>
        && r == Ok(Pending(old(liked), old(likes), userId.value, if old(liked) then UnlikeEndpoint else LikeEndpoint))
        && liked == !old(liked)
        && likes == OptimisticLikes(old(liked), old(likes), userId.value)
    {
      if !Present(userId) {
        return Err(NotAuthenticated);
      }
      var endpoint := if liked then UnlikeEndpoint else LikeEndpoint;
      r := Ok(Pending(liked, likes, userId.value, endpoint));
      likes := OptimisticLikes(liked, likes, userId.value);
      liked := !liked;
    }

    /**
     * The rest of the click. An error status on the request or on the refetch
     * restores the state from before the click and throws; a rejection of
     * either, or a body that does not parse, throws its own error and leaves
     * the optimistic state shown; otherwise the list becomes the server's and
     * `liked` keeps its new value.
     */
    method FinishToggle(p: Pending, request: Request, refetch: Refetch) returns (o: Outcome)
      modifies this
      ensures request.Rejected? ==> liked == old(liked) && likes == old(likes) && o == Thrown(request.error)
      ensures request == Answered(false) ==>
        && liked == p.originalLiked && likes == p.originalLikes
        && o == Thrown(if p.originalLiked then UnlikeFailed else LikeFailed)
      ensures request == Answered(true) && refetch.RefetchNotOk? ==>
        liked == p.originalLiked && likes == p.originalLikes && o == Thrown(FetchFailed)
      ensures request == Answered(true) && refetch.RefetchRejected? ==>
        liked == old(liked) && likes == old(likes) && o == Thrown(refetch.error)
      ensures request == Answered(true) && refetch.Refetched? ==>
        liked == old(liked) && likes == refetch.likes && o == Completed
    {
      match request {
        case Rejected(error) =>
          return Thrown(error);
        case Answered(ok) =>
          if !ok {
            liked, likes := p.originalLiked, p.originalLikes;
            return Thrown(if p.originalLiked then UnlikeFailed else LikeFailed);
          }
      }
      match refetch {
        case RefetchRejected(error) =>
          o := Thrown(error);
        case RefetchNotOk =>
          liked, likes := p.originalLiked, p.originalLikes;
          o := Thrown(FetchFailed);
        case Refetched(newLikes) =>
          likes := newLikes;
          o := Completed;
      }
    }
  }
}
