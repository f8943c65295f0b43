/**
 * The followers route (app/api/followers/route.ts): list the followers of a
 * user, follow, and unfollow. The snapshots stored on a new edge are the
 * `user` subdocuments of the first post written by each side.
 *
 * `connectFault` stands for `connectDB` failing inside the handler's `try`,
 * which answers 500.
 */
module FollowersRoute {
  import opened Wrappers
  import opened Records
  import opened Responses
  import Seqs
  import FollowGraph
  import Store

  const UserIdMissing := "User ID not provided"
  const IdsMissing := "Follower ID or Following ID not provided"
  const UserDataNotFound := "User data not found for follower or following"
  const FetchFailed := "An error occurred while fetching followers"
  const FollowFailed := "An error occurred while following"
  const UnfollowFailed := "An error occurred while unfollowing"
  const Followed := "Followed successfully"
  const RelationNotFound := "Follow relationship not found"
  const Unfollowed := "Unfollowed successfully"

  /**
   * GET: the followers of `user_id`. A failing listing query is swallowed by
   * `getAllFollowers` and answers an empty list, so the "No followers found"
   * branch of the source never runs.
   */
  function GetFollowers(edges: seq<FollowEdge>, userIdParam: Option<string>, connectFault: bool, queryFault: bool)
    : (r: Reply<seq<FollowGraph.FollowerEntry>>)
    ensures connectFault ==> r == Reply(500, Failure(FetchFailed))
    ensures !connectFault && !Present(userIdParam) ==> r == Reply(400, Failure(UserIdMissing))
    ensures !connectFault && Present(userIdParam) ==> r.status == 200 && r.body.Data?
    ensures r.body.Data? && !queryFault ==>
      forall x :: x in r.body.value <==>
        exists i :: 0 <= i < |edges| && edges[i].following.userId == userIdParam.value
                    && x == FollowGraph.FollowerOf(edges[i])
    ensures r.body.Data? && queryFault ==> r.body.value == []
  {
    if connectFault then Reply(500, Failure(FetchFailed))
    else if !Present(userIdParam) then Reply(400, Failure(UserIdMissing))
    else
      FollowGraph.FollowersExact(edges, userIdParam.value);
      Reply(200, Data(FollowGraph.GetAllFollowers(edges, userIdParam.value, queryFault)))
  }

  /** The `user` of the first post written by `userId`: `Post.findOne({ "user.userId": userId }, "user")`. */
  function AuthorSnapshot(posts: seq<Post>, userId: string): (r: Option<Snapshot>)
    ensures r.Some? <==> exists i :: 0 <= i < |posts| && posts[i].user.userId == userId
    ensures r.Some? ==> r.value.userId == userId
    ensures r.Some? ==> exists i :: 0 <= i < |posts| && posts[i].user == r.value
  {
    match Seqs.FirstIndexOf(posts, AuthorId, userId)
    case None => None
    case Some(k) => Some(posts[k].user)
  }

  /**
   * POST: follow. Both ids are required; both users must have written a post;
   * an existing edge for the pair makes `follow` throw, which answers 500.
   * The snapshots come from stored posts, so they always pass EdgeSchema and
   * the "Follow action failed" branch of the source never runs.
   */
  method PostFollow(store: Store.Store, followerUserId: Option<string>, followingUserId: Option<string>, connectFault: bool)
    returns (r: Reply<FollowEdge>)
    requires store.Valid()
    modifies store
    ensures store.Valid()
    ensures store.users == old(store.users) && store.posts == old(store.posts) && store.comments == old(store.comments)
    ensures r.status != 200 ==> store.edges == old(store.edges) && store.nextId == old(store.nextId) && store.clock == old(store.clock)
    ensures connectFault ==> r == Reply(500, Failure(FollowFailed))
    ensures !connectFault && !(Present(followerUserId) && Present(followingUserId)) ==>
      r == Reply(400, Failure(IdsMissing))
    ensures !connectFault && Present(followerUserId) && Present(followingUserId) ==>
      var a := AuthorSnapshot(old(store.posts), followerUserId.value);
      var b := AuthorSnapshot(old(store.posts), followingUserId.value);
      && (a.None? || b.None? ==> r == Reply(404, Failure(UserDataNotFound)))
      && (a.Some? && b.Some? && FollowGraph.HasEdge(old(store.edges), a.value.userId, b.value.userId) ==>
            r == Reply(500, Failure(FollowFailed)))
      && (a.Some? && b.Some? && !FollowGraph.HasEdge(old(store.edges), a.value.userId, b.value.userId) ==>
            && r == Reply(200, Message(Followed, None))
            && store.edges == old(store.edges) + [FollowEdge(old(store.nextId), a.value, b.value, old(store.clock), old(store.clock))]
            && FollowGraph.HasEdge(store.edges, followerUserId.value, followingUserId.value))
  {
    if connectFault {
      return Reply(500, Failure(FollowFailed));
    }
    if !(Present(followerUserId) && Present(followingUserId)) {
      return Reply(400, Failure(IdsMissing));
    }
    var i := Seqs.Find(store.posts, AuthorId, followerUserId.value);
    var j := Seqs.Find(store.posts, AuthorId, followingUserId.value);
    if i.None? || j.None? {
      return Reply(404, Failure(UserDataNotFound));
    }
    var follower := store.posts[i.value].user;
    var following := store.posts[j.value].user;
    assert ValidPost(store.posts[i.value]) && ValidPost(store.posts[j.value]);
    var follow := store.Follow(follower, following);
    if follow.Err? {
      return Reply(500, Failure(FollowFailed));
    }
    r := Reply(200, Message(Followed, None));
  }

  /**
   * DELETE: unfollow. The edge is looked up by its pair and deleted by its id;
   * `unfollow` only logs a failed delete, so the answer is the same either way.
   * Because a pair has at most one edge, after a successful delete no edge
   * for the pair remains.
   */
  method DeleteFollow(store: Store.Store, followerUserId: Option<string>, followingUserId: Option<string>,
                      connectFault: bool, deleteFault: bool)
    returns (r: Reply<FollowEdge>)
    requires store.Valid()
    modifies store
    ensures store.Valid()
    ensures store.users == old(store.users) && store.posts == old(store.posts) && store.comments == old(store.comments)
    ensures r.status != 200 || deleteFault ==> store.edges == old(store.edges)
    ensures store.nextId == old(store.nextId) && store.clock == old(store.clock)
    ensures connectFault ==> r == Reply(500, Failure(UnfollowFailed))
    ensures !connectFault && !(Present(followerUserId) && Present(followingUserId)) ==>
      r == Reply(400, Failure(IdsMissing))
    ensures !connectFault && Present(followerUserId) && Present(followingUserId) ==>
      var a := followerUserId.value;
      var b := followingUserId.value;
      && (!FollowGraph.HasEdge(old(store.edges), a, b) ==> r == Reply(404, Failure(RelationNotFound)))
      && (FollowGraph.HasEdge(old(store.edges), a, b) ==> r == Reply(200, Message(Unfollowed, None)))
      && (FollowGraph.HasEdge(old(store.edges), a, b) && !deleteFault ==>
            var k := Seqs.FirstIndexOf(old(store.edges), EdgePair, (a, b)).value;
            && store.edges == old(store.edges)[..k] + old(store.edges)[k + 1..]
            && !FollowGraph.HasEdge(store.edges, a, b))
  {
    if connectFault {
      return Reply(500, Failure(UnfollowFailed));
    }
    if !(Present(followerUserId) && Present(followingUserId)) {
      return Reply(400, Failure(IdsMissing));
    }
    var a := followerUserId.value;
    var b := followingUserId.value;
    var found := Seqs.Find(store.edges, EdgePair, (a, b));
    FollowGraph.HasEdgeIffFound(store.edges, a, b);
    if found.None? {
      return Reply(404, Failure(RelationNotFound));
    }
    var k := found.value;
    Seqs.FirstIndexOfDistinct(store.edges, EdgeId, k);
    FollowGraph.RemoveEdgeClearsPair(store.edges, k);
    store.Unfollow(store.edges[k].id, deleteFault);
    r := Reply(200, Message(Unfollowed, None));
  }
}
