/**
 * The profile route (app/api/user-profile/route.ts): the number of posts
 * and of comments a user wrote, and the display fields of their first post.
 * A user with no post gets 404 although both counts were taken.
 */
module UserProfile {
  import opened Wrappers
  import opened Records
  import opened Responses
  import Seqs

  const UserIdRequired := "User ID is required"
  const UserNotFound := "User not found"
  const FetchFailed := "Error fetching user data"

  datatype Profile = Profile(
    userId: string,
    userImage: Option<string>,
    firstName: Option<string>,
    lastName: Option<string>,
    postCount: nat,
    commentCount: nat)

  /** `countDocuments({ "user.userId": u })` on a collection. */
  function PostCount(posts: seq<Post>, u: string): nat {
    multiset(Seqs.Keys(posts, AuthorId))[u]
  }

  function CommentCount(comments: seq<Comment>, u: string): nat {
    multiset(Seqs.Keys(comments, CommentAuthorId))[u]
  }

  /** GET: the profile of `user_id`. Comments are counted in the comment collection, on any post or none. */
  function GetProfile(posts: seq<Post>, comments: seq<Comment>, userIdParam: Option<string>, connectFault: bool)
    : (r: Reply<Profile>)
    ensures connectFault ==> r == Reply(500, Failure(FetchFailed))
    ensures !connectFault && !Present(userIdParam) ==> r == Reply(400, Failure(UserIdRequired))
    ensures r.status == 404 <==> !connectFault && Present(userIdParam) && PostCount(posts, userIdParam.value) == 0
    ensures r.status == 404 ==> r.body == Failure(UserNotFound)
    ensures r.status == 200 ==>
      && r.body.Data? && r.body.value.userId == userIdParam.value
      && r.body.value.postCount == PostCount(posts, userIdParam.value) > 0
      && r.body.value.commentCount == CommentCount(comments, userIdParam.value)
      && exists i :: 0 <= i < |posts| && posts[i].user.userId == userIdParam.value
           && r.body.value.firstName == posts[i].user.firstName
           && r.body.value.lastName == posts[i].user.lastName
           && r.body.value.userImage == posts[i].user.userImage
    ensures r.status in {200, 400, 404, 500}
  {
    if connectFault then Reply(500, Failure(FetchFailed))
    else if !Present(userIdParam) then Reply(400, Failure(UserIdRequired))
    else
      var u := userIdParam.value;
      Seqs.CountZeroIffAbsent(posts, AuthorId, u);
      match Seqs.FirstIndexOf(posts, AuthorId, u)
      case None => Reply(404, Failure(UserNotFound))
      case Some(k) =>
        var s := posts[k].user;
        Reply(200, Data(Profile(u, s.userImage, s.firstName, s.lastName, PostCount(posts, u), CommentCount(comments, u))))
  }
}
