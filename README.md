# LinkedIn-clone social graph and engagement, in Dafny

This project models the social-graph and engagement core of a LinkedIn-style
Next.js application that keeps its data in MongoDB through Mongoose:

- the four collections (users, posts, comments, follower edges) and the model
  methods that write to them: `Followers.follow`, `unfollow`, `getAllFollowers`,
  `getAllFollowing`, `Post.create`, `likePost`, `unlikePost`, `removePost`,
  `commentOnPost`, `getAllComments`, `getAllPosts`, `getPostById`, and the
  User schema's validation and unique indexes;
- the HTTP routes that read and write them: followers (GET, POST, DELETE),
  auth (the user upsert), posts (GET, POST), search-users (with its query
  cache), users (the network directory) and user-profile;
- the server actions that create a post or a repost, delete a post and add a
  comment, with their guards in source order;
- the client logic: the user card's post and comment counts, the like button's
  optimistic toggle and rollback, the header's scroll-driven visibility, and
  the network page's follow and unfollow handlers and button rule.

The store is a class (`Store.Store`) whose sequence fields are the
collections. Its invariant `Valid()` says:

- every stored document passed its schema;
- ids are unique;
- users are unique by `userId` and by `email`;
- there is at most one follower edge per (follower, following) pair.

Every writing operation keeps that invariant. Ids come from one counter.
Dates come from a logical clock that advances with every write that stamps a
date. A `findOne` or `findById` is a loop (`Seqs.Find`) proved equal to the
first match in insertion order (`Seqs.FirstIndexOf`). A Mongoose `required`
string rejects both a missing value and `""`. A missing JSON field is `None`,
and `Present` is JavaScript truthiness of `string | undefined`. A User
document's `userImage` and `lastName`, and the auth request's, are a `Field`
(`Missing`, `Null` or `Str`), because `!==` and the schema default tell
`null` from a missing path. A database connection that fails, or a
storage call whose failure the source catches, is a boolean parameter
(`connectFault`, `fault`, …). Responses are `Reply(status, body)`; server
actions end `Completed` or `Thrown(message)`.

## Model

| member | source | states |
|---|---|---|
| Records.Limited | mongodb/models/user.ts:11 | the embedded author snapshot of a valid user with an image passes the embedded schema; a snapshot that passes it has a non-empty userId, firstName and userImage |
| Records.LimitedIgnoresEmail | mongodb/models/user.ts:11 | the snapshot drops the email: users differing only in email give the same snapshot |
| Records.NewComment | mongodb/models/comment.ts:15-28 | a created comment passes CommentSchema exactly when its input has a full author snapshot and a non-empty text; both timestamps are the creation time |
| Records.WithDefaults | mongodb/models/user.ts:16 | a missing userImage loads as the schema default ""; a stored string or `null` is returned unchanged, since the default applies only to a missing path; no other field changes |
| Seqs.Find | mongodb/models/followers.ts:69-72 | the lookup loop returns exactly the index of the first document with the key, or None when no document has it |
| Seqs.CountZeroIffAbsent | app/api/user-profile/route.ts:23-41 | the count of documents with a key is zero exactly when `findOne` on that key finds none |
| Seqs.SortDesc | mongodb/models/post.ts:108-109 | the newest-first sort returns a permutation (same multiset) whose createdAt keys never increase |
| Likes.AddToSet | mongodb/models/post.ts:59-65 | `$addToSet`: the user is in the result, every earlier like is kept, nothing else is added, and the length grows by one exactly when the user was absent |
| Likes.Pull | mongodb/models/post.ts:67-73 | `$pull`: the user is absent afterwards and every other user id is kept exactly |
| Likes.AddToSetIdempotent | mongodb/models/post.ts:59-65 | liking twice stores the same list as liking once |
| Likes.AddToSetKeepsNoDuplicates | mongodb/models/post.ts:59-65 | `$addToSet` keeps a duplicate-free likes list duplicate-free |
| Likes.PullAbsent | mongodb/models/post.ts:67-73 | unliking a user who is not in the list leaves it unchanged |
| Likes.PullAppend | mongodb/models/post.ts:67-73 | `$pull` distributes over concatenation |
| Likes.PullIdempotent | mongodb/models/post.ts:67-73 | unliking twice stores the same list as unliking once |
| Likes.LikeThenUnlike | mongodb/models/post.ts:59-73 | a like followed by an unlike restores a list that did not hold the user |
| Likes.PullKeepsNoDuplicates | mongodb/models/post.ts:67-73 | `$pull` keeps a duplicate-free likes list duplicate-free |
| FollowGraph.HasEdgeIffFound | mongodb/models/followers.ts:69-74 | an edge for the pair exists exactly when the follower/following `findOne` finds one |
| FollowGraph.AddEdgeKeepsUnique | mongodb/models/followers.ts:69-80 | creating an edge only for a pair without one keeps at most one edge per pair |
| FollowGraph.RemoveEdgeClearsPair | mongodb/models/followers.ts:55-61 | deleting the edge of a pair leaves no edge for that pair |
| FollowGraph.FollowersOf | mongodb/models/followers.ts:88-96 | the follower listing has at most one entry per edge |
| FollowGraph.FollowingOfUser | mongodb/models/followers.ts:104-112 | the following listing has at most one entry per edge |
| FollowGraph.GetAllFollowers | mongodb/models/followers.ts:88-101 | a failed query yields []; otherwise every listed follower has an edge to the user |
| FollowGraph.GetAllFollowing | mongodb/models/followers.ts:104-117 | a failed query yields []; otherwise the user has an edge to every listed user |
| FollowGraph.FollowersExact | mongodb/models/followers.ts:88-96 | an entry is listed exactly when it is the follower side of an edge whose following id is the user |
| FollowGraph.FollowingExact | mongodb/models/followers.ts:104-112 | an entry is listed exactly when it is the following side of an edge whose follower id is the user |
| FollowGraph.FollowersCount | mongodb/models/followers.ts:88-96 | the number of followers listed equals the number of edges pointing at the user |
| FollowGraph.FollowingCount | mongodb/models/followers.ts:104-112 | the number of followed users listed equals the number of edges leaving the user |
| FollowGraph.FollowersDistinct | mongodb/models/followers.ts:64-96 | because `follow` refuses a second edge per pair, no follower is listed twice |
| Store.Store.Follow | mongodb/models/followers.ts:64-85 | an existing pair throws "You are already following this user" and changes nothing; an invalid snapshot is a validation error; otherwise exactly one new edge is appended and the id counter and clock advance; the error paths leave them as they were; the store invariant holds |
| Store.Store.Unfollow | mongodb/models/followers.ts:55-61 | `deleteOne` removes exactly the edge with that id and keeps the others in order; a failure is only logged and changes nothing |
| Store.Store.CreatePost | mongodb/models/post.ts:41-57 | `Post.create` succeeds exactly when the author snapshot is complete and the text is non-empty; it appends one post with a fresh id, no comments and no likes, advancing the id counter and clock; otherwise it is a validation error and nothing changes, counters included |
| Store.Store.LikePost | mongodb/models/post.ts:59-65 | the post with the id gets `$addToSet` of the user and a new updatedAt; no other post changes; a failure or a missing post changes nothing |
| Store.Store.UnlikePost | mongodb/models/post.ts:67-73 | the post with the id gets `$pull` of the user and a new updatedAt; no other post changes; a failure or a missing post changes nothing |
| Store.Store.RemovePost | mongodb/models/post.ts:75-81 | exactly the post with the id is deleted; its comments stay in the comment collection; a failure is only logged |
| Store.Store.CommentOnPost | mongodb/models/post.ts:83-91 | a valid comment is always created; its id is pushed onto the post unless the save fails, which leaves the comment unreferenced; an invalid comment writes nothing and leaves the id counter and clock as they were |
| Store.Store.CreateUser | mongodb/models/user.ts:13-22 | a user missing userId, firstName or email is rejected; a duplicate userId or email hits the unique index; otherwise the user is appended |
| Store.Store.UpdateUserDisplay | app/api/auth/route.ts:30-33 | assigning the display fields and saving succeeds exactly when firstName is still present; only that user's record changes |
| PostQueries.Referenced | mongodb/models/post.ts:93-99 | population yields exactly the stored comments whose ids the post references; a dangling id yields nothing |
| PostQueries.Populate | mongodb/models/post.ts:93-99 | the populated comments are the referenced ones, sorted newest first |
| PostQueries.PopulateAll | mongodb/models/post.ts:106-116 | each post of the feed is populated independently |
| PostQueries.GetAllComments | mongodb/models/post.ts:93-104 | the post's comments, newest first, or undefined when the query fails |
| PostQueries.GetAllPosts | mongodb/models/post.ts:106-133 | every post exactly once (a permutation), newest first, each with its comments newest first; undefined on failure |
| PostQueries.GetPostById | mongodb/models/post.ts:135-171 | a result exactly when the id is an ObjectId of a stored post and the query does not fail; it is that post, populated |
| FollowersRoute.GetFollowers | app/api/followers/route.ts:9-41 | a failed connection gives 500; a missing user_id gives 400; otherwise 200 with exactly the user's followers, or [] when the query fails |
| FollowersRoute.AuthorSnapshot | app/api/followers/route.ts:63-71 | the author snapshot of the user's first post, present exactly when the user wrote a post |
| FollowersRoute.PostFollow | app/api/followers/route.ts:49-100 | 500 on connection failure; 400 when an id is missing; 404 when either user has no post; 500 when the edge exists; otherwise 200 and exactly one new edge between the two authors' snapshots; only a 200 writes, and every other answer leaves the id counter and clock as they were |
| FollowersRoute.DeleteFollow | app/api/followers/route.ts:103-136 | 400 when an id is missing; 404 when there is no edge; otherwise 200, and unless the delete fails the pair's edge is gone and no other edge changes; the id counter and clock never change |
| AuthRoute.NormaliseEmail | app/api/auth/route.ts:15-16 | the stored email is the string itself, else the object's address, else "" |
| AuthRoute.NewUser | app/api/auth/route.ts:52-58 | a new record copies id, first name and email; a missing, null or empty image or last name becomes "" |
| AuthRoute.Upsert | app/api/auth/route.ts:15-66 | 500 on failure with no write; an unknown id creates a record (201 with the record), and any failed create answers 500 (a required field missing, the email taken); a known id is rewritten (200 "updated" with the saved record) exactly when a display field differs from the loaded record and the first name is present, a failed save answers 500, and it answers "up-to-date" exactly when nothing differs; fields compare with `!==`, so a `null` field differs from a missing one and matches a stored `null` |
| AuthRoute.PostAuth | app/api/auth/route.ts:7-74 | the POST handler changes only the user collection, exactly as the upsert says (with `null` and missing fields kept apart), and returns its reply; the id counter and clock never change |
| AuthRoute.UpsertKeepsIdentity | app/api/auth/route.ts:19-58 | no request changes a stored user's id or email, and no request adds a record for an id other than the requested one |
| AuthRoute.UpsertStoresFirstName | app/api/auth/route.ts:23-60 | after a successful request the record for the id carries the requested first name |
| AuthRoute.RepeatWithFullPayloadWritesNothing | app/api/auth/route.ts:23-48 | repeating a successful request that carries an image and a last name writes nothing and answers "up-to-date" |
| AuthRoute.ImagelessRequestAlwaysWrites | app/api/auth/route.ts:23-33 | as written: a request with no userImage field for a known user always counts as outdated and writes |
| AuthRoute.ImagelessRequestNeverSettles | app/api/auth/route.ts:23-33 | as written: the same request with no userImage field sent three times writes three times |
| AuthRoute.RepeatForRegisteredUserWritesNothing | app/api/auth/route.ts:23-48 | for a known user, repeating a successful request whose image is a string or `null` writes nothing: the fields are stored as sent and read back equal |
| AuthRoute.NullImageRepeatIsUpToDate | app/api/auth/route.ts:23-48 | a stored `null` image and a request carrying `null` again answer "up-to-date" and save nothing |
| AuthRoute.Normalise | app/api/auth/route.ts:54-56 | the request with the create branch's defaults applied; the record it creates is the same |
| AuthRoute.NormalisedStoresDefaults | app/api/auth/route.ts:52-58 | after the corrected upsert, the stored display fields are the defaulted request's |
| AuthRoute.UpsertNormalised | app/api/auth/route.ts:23-33 | corrected: comparisons and writes use the defaulted values, so a write leaves the record equal to the request |
| AuthRoute.NormalisedUpsertSettles | app/api/auth/route.ts:23-48 | corrected: any request that succeeded can be repeated without another write |
| PostsRoute.PostsBy | app/api/posts/route.ts:44-46 | the filter keeps exactly the user's posts, each as many times as stored |
| PostsRoute.GetPosts | app/api/posts/route.ts:37-59 | 500 on failure; otherwise 200 with the filtered posts (all posts without user_id), as a permutation, newest first |
| PostsRoute.CreatePost | app/api/posts/route.ts:13-35 | 200 exactly when the connection works and the post passes the schema; the post is appended with an imageUrl only when one was given; otherwise 500 and nothing is written, counters included |
| CreatePostAction.AuthorOf | actions/createPostAction.ts:31-37 | the stored user with the sign-in image and names, without email; it is a valid author exactly when the id, the image and the first name are non-empty |
| CreatePostAction.ImageUrlOf | actions/createPostAction.ts:60-97 | the post gets an image URL exactly when a non-empty file was uploaded successfully |
| CreatePostAction.DraftFor | actions/createPostAction.ts:31-109 | an unknown user writes nothing; a repost needs the original post, and copies its text with the "REPOSTED:" prefix and its image only if set; otherwise a non-empty input becomes the text, with the uploaded image |
| CreatePostAction.PostsAfter | actions/createPostAction.ts:44-109 | the draft is appended exactly when it passes PostSchema; earlier posts are kept |
| CreatePostAction.CreatePost | actions/createPostAction.ts:14-120 | an unauthenticated caller gets "User not authenticated" and nothing changes; every other failure is caught, so the action completes, with the posts as the draft says; when no post is added the id counter and clock stay as they were |
| DeletePostAction.Check | actions/deletePostAction.ts:8-26 | the guards in order: not signed in, a cast error, no such post, a post of another user; none fires exactly when the post exists and is the caller's |
| DeletePostAction.DeletePost | actions/deletePostAction.ts:8-34 | a failing guard throws and changes nothing; otherwise the action completes, and unless the removal fails exactly that post is gone and every other post stays in order; the id counter and clock never change |
| CreateCommentAction.Check | actions/createCommentAction.ts:11-49 | the guards in order: post id, comment input, sign-in, stored user, cast error, missing post, each stated as the exact condition under which its error is thrown; none fires exactly when all are present and found |
| CreateCommentAction.InputFor | actions/createCommentAction.ts:28-54 | the comment body from the loaded user is valid exactly when the user's id, first name and image and the text are non-empty |
| CreateCommentAction.CreateComment | actions/createCommentAction.ts:11-63 | a failing guard throws and writes nothing, leaving the id counter and clock as they were; otherwise the comment is created and pushed onto the post, as `commentOnPost` says |
| Text.Trim | app/api/search-users/route.ts:14 | exactly the leading and trailing whitespace is removed: the result is a slice of the input with only whitespace before and after it, and it neither starts nor ends with whitespace; an input without whitespace is returned unchanged |
| Text.TrimIdempotent | app/api/search-users/route.ts:14 | trimming a trimmed query changes nothing |
| Text.ContainsSelf | app/api/search-users/route.ts:34-35 | a name matches a query equal to itself |
| Text.MatchIgnoresQueryCase | app/api/search-users/route.ts:34-35 | the match does not depend on the letter case of the query |
| SearchUsers.QueryOf | app/api/search-users/route.ts:13-14 | the query is the trimmed parameter, or "" when it is missing |
| SearchUsers.Candidates | app/api/search-users/route.ts:30-38 | exactly the authors of posts whose first or last name matches the query |
| SearchUsers.Dedup | app/api/search-users/route.ts:89-97 | the merge is never longer than its input |
| SearchUsers.DedupKeepsIds | app/api/search-users/route.ts:89-97 | the merge holds a userId exactly when its input does |
| SearchUsers.DedupDistinct | app/api/search-users/route.ts:89-97 | the merge never holds two entries with one userId |
| SearchUsers.DedupKeepsFirstOccurrences | app/api/search-users/route.ts:89-97 | each kept entry is its userId's first occurrence, and kept entries keep their input order |
| SearchUsers.DedupPrefix | app/api/search-users/route.ts:89-97 | appending entries never moves or drops entries already merged |
| SearchUsers.DedupOfDistinct | app/api/search-users/route.ts:89-97 | a list without repeated userIds merges to itself |
| SearchUsers.MergeResults | app/api/search-users/route.ts:89-97 | the reduce loop computes exactly the merge of post-side then follower-side entries |
| SearchUsers.Take | app/api/search-users/route.ts:48 | `$limit` keeps a prefix of at most n entries, and everything when there are at most n |
| SearchUsers.PostSideUsers | app/api/search-users/route.ts:30-49 | at most five entries, one per author, each from a matching post; a matching author is missing only when the list is full |
| SearchUsers.MergedAnswer | app/api/search-users/route.ts:88-102 | the answer has at most ten entries, no userId twice, the post side first, and exactly the userIds of both sides |
| SearchUsers.SearchCache.constructor | app/api/search-users/route.ts:7 | the cache starts empty |
| SearchUsers.SearchCache.Expire | app/api/search-users/route.ts:7 | expiry drops exactly that query's entry |
| SearchUsers.Search | app/api/search-users/route.ts:9-110 | 500 on failure and 400 for an empty query, neither touching the cache; a cached query is answered from the cache; otherwise the merged answer is cached and returned |
| UsersRoute.Authors | app/api/users/route.ts:28-39 | the group keys: every author exactly once |
| UsersRoute.PostCountIsOccurrences | app/api/users/route.ts:32 | `$sum: 1` over a user's group is the number of their posts |
| UsersRoute.SumsAddUp | app/api/users/route.ts:28-39 | summing a per-post weight group by group gives the total over all posts |
| UsersRoute.FollowedIds | app/api/users/route.ts:21-25 | an id is followed exactly when the current user has an edge to it |
| UsersRoute.Directory | app/api/users/route.ts:28-45 | one entry per author, in order of first post, with the author's post count and comment-reference count, the first post's first name, last name and image, and isFollowing exactly when the id is in the followed list |
| UsersRoute.GetUsers | app/api/users/route.ts:6-54 | 500 on failure; 400 without current_user_id; otherwise one entry per author with their post count, comment-reference count, the first post's names and image, and isFollowing exactly when the current user follows them |
| UsersRoute.DirectoryTotals | app/api/users/route.ts:28-39 | over the whole directory the post counts add up to the number of posts, and the comment counts to the comment references of all posts: no post is counted twice or left out |
| UserProfile.GetProfile | app/api/user-profile/route.ts:8-61 | 500 on failure; 400 without user_id; 404 exactly when the user has no post; otherwise their post and comment counts and the names and image of one of their posts |
| UserInformation.UserPostCount | components/UserInformation.tsx:14 | the card's post count is the number of feed posts by the signed-in user, and 0 when nobody is signed in |
| UserInformation.OwnComments | components/UserInformation.tsx:17 | the comments on one post that the user wrote; an absent list gives none |
| UserInformation.UserComments | components/UserInformation.tsx:16-18 | exactly the user's comments across all feed posts |
| UserInformation.UserCommentCountBounded | components/UserInformation.tsx:14-18 | the user's comment count never exceeds the feed's, and is 0 when nobody is signed in |
| PostOptions.OptimisticLikes | components/PostOptions.tsx:71 | an unlike removes the user and keeps every other id; a like appends the user |
| PostOptions.OptimisticMatchesServer | components/PostOptions.tsx:71 | the optimistic list is what the server stores: `$pull` for an unlike, `$addToSet` for a first like |
| PostOptions.OptimisticRoundTrip | components/PostOptions.tsx:71 | a like followed by an unlike shows the original list again |
| PostOptions.LikeLabel | components/PostOptions.tsx:117 | "like" exactly for one like, "likes" otherwise |
| PostOptions.LikeButton.constructor | components/PostOptions.tsx:21-22 | the button starts not liked, showing the post's likes |
| PostOptions.LikeButton.SyncLiked | components/PostOptions.tsx:56-60 | on load the button becomes liked when the user's id is in the post's likes; it is never cleared |
| PostOptions.LikeButton.BeginToggle | components/PostOptions.tsx:62-80 | a signed-out click throws and changes nothing; otherwise liked flips, the optimistic list is shown, and the unlike route is used exactly when the post was liked |
| PostOptions.LikeButton.FinishToggle | components/PostOptions.tsx:80-108 | an error status on the request or on the refetch restores the state from before the click and throws the matching message; a rejected request, a rejected refetch or an unparsable body throws its own error and leaves the optimistic state shown; otherwise the list becomes the server's and liked keeps its new value |
| HeaderVisibility.NextVisible | actions/useHeaderVisibility.ts:19-26 | scrolling up shows the header, scrolling down hides it, no movement keeps it |
| HeaderVisibility.ReplayFollowsLastMove | actions/useHeaderVisibility.ts:16-27 | after any scroll sequence the header is shown exactly when the last movement was upward (unchanged if nothing moved), and the remembered position is the last one |
| HeaderVisibility.Header.constructor | actions/useHeaderVisibility.ts:4-5 | the header starts shown, with the last position 0 |
| HeaderVisibility.Header.HandleScroll | actions/useHeaderVisibility.ts:16-34 | the new visibility follows the scroll direction, and the position is remembered |
| HeaderVisibility.Header.InactivityTimeout | actions/useHeaderVisibility.ts:9-14 | the timeout hides the header unless the page is at the top; it never shows it |
| NetworkPage.MarkFollowing | components/NetworkPage.tsx:63-67 | entries with the id get the new isFollowing; every other entry is unchanged |
| NetworkPage.MarkFollowingIdempotent | components/NetworkPage.tsx:63-67 | marking twice is marking once |
| NetworkPage.FollowThenUnfollow | components/NetworkPage.tsx:63-99 | a follow then an unfollow of one entry is the same as the unfollow alone |
| NetworkPage.MarkFollowingNoChange | components/NetworkPage.tsx:63-67 | marking an entry that already shows that value changes nothing |
| NetworkPage.ButtonFor | components/NetworkPage.tsx:134-154 | the user's own entry shows "Yourself"; otherwise "Unfollow" exactly when followed and "Follow" exactly when not, disabled exactly while loading |
| NetworkPage.Network.constructor | components/NetworkPage.tsx:22-23 | the page starts with no users and not loading |
| NetworkPage.Network.FetchUsers | components/NetworkPage.tsx:29-45 | only a successful response replaces the list; loading ends either way |
| NetworkPage.Network.HandleFollow | components/NetworkPage.tsx:47-77 | a successful follow marks the target as followed and changes nothing else; loading ends either way |
| NetworkPage.Network.HandleUnfollow | components/NetworkPage.tsx:79-109 | a successful unfollow marks the target as not followed and changes nothing else; loading ends either way |

## Left out

- UsersRoute.Directory: MongoDB leaves the order of `$group` output and the post that `$first` reads unspecified without a `$sort`; the model uses the order of first posts for both.
- Database connection, Next.js request/response objects, the authentication provider (`currentUser`, `auth.protect`), `revalidatePath` and toasts: an identity, a request field or a `fault` flag stands for each.
- Null versus missing: only a User document's `userImage` and `lastName` (and the auth request's) keep the two apart; embedded user snapshots and `firstName` read both as `None`, since the required validator rejects both and no modelled code compares them.
- ObjectId strings: which strings `ObjectId.isValid` or a cast accepts is abstract (`IdText`), as is the `_id.toString()` conversion of the read paths.
- Error messages that interpolate the caught error: the model keeps only the fixed prefix.
- `request.json()` failing on a malformed body is not modelled; the auth payload is assumed to carry a userId.
- The blob upload in the create-post action: its outcome is a parameter (`UploadResult`); tokens, file names and the storage client are not modelled.
- Regular-expression search: the query is matched as a literal, ignoring ASCII letter case only; regex metacharacters and non-ASCII case folding are not modelled.
- Text.IsSpace: covers the common whitespace and line terminators, not every Unicode space separator that `trim` removes.
- SearchUsers.Search: the follower-side aggregation is a parameter of at most five entries, because its `$lookup` joins on a field the edges do not have.
- SearchUsers.PostSideUsers: `$group` output order is unspecified in MongoDB; the model keeps first-post order.
- SearchUsers.SearchCache: the five-minute TTL is the separate `Expire` event; clocks and eviction timing are not modelled.
- UserProfile.GetProfile: the followers and following counts are not modelled; they query fields the edges do not have.
- Seqs.SortDesc: ties in createdAt may come back in any order in MongoDB; the model fixes one order.
- HeaderVisibility.Header.HandleScroll: it does not model the timer restart; the timeout is the separate `InactivityTimeout` event.
- Concurrency: requests and client handlers are modelled one at a time, with no interleaving between awaits except the like button's split into `BeginToggle` and `FinishToggle`.
- The repost button in components/PostOptions.tsx:31-54 only calls the create-post action with the post's id; that action's repost branch is modelled in `CreatePostAction.DraftFor`.
- The stored likes list is always an array (Mongoose array paths default to `[]`), so the `likes ?? []` fallbacks are not modelled.
- NetworkPage: how the page renders users (avatars, names) and which user id it sends are not modelled.
- Unreachable branches: `getAllFollowers` never returns a falsy value, `follow` never returns a falsy edge, and the create-comment action's "Comment input or user is required" guard cannot fire after the earlier guards; the model has none of them.

## Findings

| source | as written | input that shows it | evidently intended | confidence | as-written member | corrected member |
|---|---|---|---|---|---|---|
| app/api/auth/route.ts:23-32 | a request with no `userImage` field is compared against the stored image, which loads as "" by default, so it always counts as outdated and rewrites the record (a `null` image settles after one write) | `POST /api/auth` with `{userId: "u1", firstName: "Ann", lastName: "Lee", email: "ann@example.com"}` and no userImage, sent three times: three saves | compare and store the same defaulted values the create branch uses, so that a repeated request writes nothing | not executed; low, because the app's own client always sends a string | AuthRoute.ImagelessRequestNeverSettles | AuthRoute.NormalisedUpsertSettles |
