/**
 * The document store as one object holding the four collections
 * (the files under mongodb/models), with the model-level operations that write to it:
 * `Followers.follow` and `unfollow`, `Post.create`, `likePost`, `unlikePost`,
 * `removePost`, `commentOnPost`, and the User collection's create and save.
 *
 * Ids come from one counter (ObjectIds are unique across collections);
 * `createdAt`/`updatedAt` come from a logical clock that every write advances.
 * A `fault` parameter stands for a storage call that fails inside a `try`
 * whose `catch` only logs.
 */
module Store {
  import opened Wrappers
  import opened Records
  import opened Likes
  import Seqs
  import FollowGraph

  /** The message `follow` throws for a pair that already has an edge. */
  const AlreadyFollowing := "You are already following this user"
  /** A Mongoose ValidationError (required field missing or empty). */
  const ValidationError := "validation failed"
  /** A unique-index violation (E11000) on userId or email. */
  const DuplicateKey := "duplicate key"

  ghost predicate UsersWellFormed(users: seq<UserRecord>) {
    && (forall i :: 0 <= i < |users| ==> ValidUser(users[i]))
    && Seqs.DistinctKeys(users, UserIdOf)
    && Seqs.DistinctKeys(users, UserEmail)
  }

  ghost predicate PostsWellFormed(posts: seq<Post>, next: Id) {
    && (forall i :: 0 <= i < |posts| ==> ValidPost(posts[i]))
    && Seqs.DistinctKeys(posts, PostId)
    && Seqs.KeysBelow(posts, PostId, next)
  }

  ghost predicate CommentsWellFormed(comments: seq<Comment>, next: Id) {
    && (forall i :: 0 <= i < |comments| ==> ValidComment(comments[i]))
    && Seqs.DistinctKeys(comments, CommentId)
    && Seqs.KeysBelow(comments, CommentId, next)
  }

  ghost predicate EdgesWellFormed(edges: seq<FollowEdge>, next: Id) {
    && (forall i :: 0 <= i < |edges| ==> ValidEdge(edges[i]))
    && Seqs.DistinctKeys(edges, EdgeId)
    && Seqs.KeysBelow(edges, EdgeId, next)
    && FollowGraph.AtMostOnePerPair(edges)
  }

  /** Replacing a post by one with the same id and user and text keeps the collection well formed. */
  lemma ReplacePostKeepsWellFormed(posts: seq<Post>, next: Id, k: nat, p: Post)
    requires PostsWellFormed(posts, next)
    requires k < |posts| && p.id == posts[k].id && ValidPost(p)
    ensures PostsWellFormed(posts[k := p], next)
  {
    var t := posts[k := p];
    assert forall i :: 0 <= i < |t| ==> PostId(t[i]) == PostId(posts[i]);
  }

  /** Ids below a counter stay below it when the counter moves up. */
  lemma RaiseBound(posts: seq<Post>, comments: seq<Comment>, edges: seq<FollowEdge>, next: Id, n: Id)
    requires PostsWellFormed(posts, next) && CommentsWellFormed(comments, next) && EdgesWellFormed(edges, next)
    requires n >= next
    ensures PostsWellFormed(posts, n) && CommentsWellFormed(comments, n) && EdgesWellFormed(edges, n)
  {
  }

  /** Appending a valid comment that carries the current counter keeps the collection well formed past it. */
  lemma AppendCommentKeepsWellFormed(comments: seq<Comment>, next: Id, c: Comment)
    requires CommentsWellFormed(comments, next)
    requires ValidComment(c) && c.id == next
    ensures CommentsWellFormed(comments + [c], next + 1)
  {
    Seqs.DistinctKeysAppend(comments, CommentId, c);
  }

  class Store {
    var users: seq<UserRecord>
    var posts: seq<Post>
    var comments: seq<Comment>
    var edges: seq<FollowEdge>
    var nextId: Id
    var clock: int

    /** Every stored document passed its schema, ids are unique, users are unique by id and email, one edge per pair. */
    ghost predicate Valid()
      reads this
    {
      && UsersWellFormed(users)
      && PostsWellFormed(posts, nextId)
      && CommentsWellFormed(comments, nextId)
      && EdgesWellFormed(edges, nextId)
    }

    constructor ()
      ensures Valid()
      ensures users == [] && posts == [] && comments == [] && edges == []
    {
      users, posts, comments, edges := [], [], [], [];
      nextId, clock := 0, 0;
    }

    /**
     * `Followers.follow`: look for an edge with the same pair; if there is one,
     * throw; otherwise create the edge and return it.
     */
    method Follow(follower: Snapshot, following: Snapshot) returns (r: Result<FollowEdge>)
      requires Valid()
      modifies this
      ensures Valid()
      ensures users == old(users) && posts == old(posts) && comments == old(comments)
      ensures FollowGraph.HasEdge(old(edges), follower.userId, following.userId) ==>
        r == Err(AlreadyFollowing) && edges == old(edges) && nextId == old(nextId) && clock == old(clock)
      ensures !FollowGraph.HasEdge(old(edges), follower.userId, following.userId)
              && !(ValidSnapshot(follower) && ValidSnapshot(following)) ==>
        r == Err(ValidationError) && edges == old(edges) && nextId == old(nextId) && clock == old(clock)
      ensures !FollowGraph.HasEdge(old(edges), follower.userId, following.userId)
              && ValidSnapshot(follower) && ValidSnapshot(following) ==>
        && r == Ok(FollowEdge(old(nextId), follower, following, old(clock), old(clock)))
        && edges == old(edges) + [r.value]
        && FollowGraph.HasEdge(edges, follower.userId, following.userId)
        && nextId == old(nextId) + 1 && clock == old(clock) + 1
    {
      var existing := Seqs.Find(edges, EdgePair, (follower.userId, following.userId));
      FollowGraph.HasEdgeIffFound(edges, follower.userId, following.userId);
      if existing.Some? {
        return Err(AlreadyFollowing);
      }
      var e := FollowEdge(nextId, follower, following, clock, clock);
      if !ValidEdge(e) {
        return Err(ValidationError);
      }
      FollowGraph.AddEdgeKeepsUnique(edges, e);
      Seqs.DistinctKeysAppend(edges, EdgeId, e);
      edges := edges + [e];
      assert EdgePair(edges[|edges| - 1]) == (follower.userId, following.userId);
      nextId := nextId + 1;
      clock := clock + 1;
      r := Ok(e);
    }

    /** `unfollow` on a loaded edge: `deleteOne` of that edge; a failure is only logged. */
    method Unfollow(edgeId: Id, fault: bool)
      requires Valid()
      modifies this
      ensures Valid()
      ensures users == old(users) && posts == old(posts) && comments == old(comments)
      ensures nextId == old(nextId) && clock == old(clock)
      ensures fault ==> edges == old(edges)
      ensures !fault ==> match Seqs.FirstIndexOf(old(edges), EdgeId, edgeId)
        case None => edges == old(edges)
        case Some(k) => edges == old(edges)[..k] + old(edges)[k + 1..]
    {
      if fault {
        return;
      }
      var found := Seqs.Find(edges, EdgeId, edgeId);
      if found.Some? {
        var k := found.value;
        Seqs.DistinctKeysSplice(edges, EdgeId, k);
        Seqs.DistinctKeysSplice(edges, EdgePair, k);
        Seqs.SpliceElements(edges, k);
        edges := edges[..k] + edges[k + 1..];
      }
    }

    /** `Post.create`: validate against PostSchema, then store with no comments and no likes. */
    method CreatePost(user: Snapshot, text: string, imageUrl: Option<string>) returns (r: Result<Post>)
      requires Valid()
      modifies this
      ensures Valid()
      ensures users == old(users) && comments == old(comments) && edges == old(edges)
      ensures r.Ok? <==> ValidSnapshot(user) && text != ""
      ensures r.Err? ==> r == Err(ValidationError) && posts == old(posts) && nextId == old(nextId) && clock == old(clock)
      ensures r.Ok? ==>
        && r.value == Post(old(nextId), user, text, imageUrl, [], [], old(clock), old(clock))
        && posts == old(posts) + [r.value]
        && nextId == old(nextId) + 1 && clock == old(clock) + 1
        && forall i :: 0 <= i < |old(posts)| ==> old(posts)[i].id != r.value.id
    {
      var p := Post(nextId, user, text, imageUrl, [], [], clock, clock);
      if !ValidPost(p) {
        return Err(ValidationError);
      }
      Seqs.DistinctKeysAppend(posts, PostId, p);
      posts := posts + [p];
      nextId := nextId + 1;
      clock := clock + 1;
      r := Ok(p);
    }

    /** `likePost`: `$addToSet` the user id into the likes of the post with this id; failures are only logged. */
    method LikePost(postId: Id, userId: string, fault: bool)
      requires Valid()
      modifies this
      ensures Valid()
      ensures users == old(users) && comments == old(comments) && edges == old(edges) && nextId == old(nextId)
      ensures fault ==> posts == old(posts)
      ensures !fault ==> match Seqs.FirstIndexOf(old(posts), PostId, postId)
        case None => posts == old(posts)
        case Some(k) => posts == old(posts)[k := old(posts)[k].(likes := AddToSet(old(posts)[k].likes, userId), updatedAt := old(clock))]
      ensures clock == old(clock) + (if !fault && Seqs.FirstIndexOf(old(posts), PostId, postId).Some? then 1 else 0)
    {
      if fault {
        return;
      }
      var found := Seqs.Find(posts, PostId, postId);
      if found.Some? {
        var k := found.value;
        var p := posts[k].(likes := AddToSet(posts[k].likes, userId), updatedAt := clock);
        ReplacePostKeepsWellFormed(posts, nextId, k, p);
        posts := posts[k := p];
        clock := clock + 1;
      }
    }

    /** `unlikePost`: `$pull` every occurrence of the user id; failures are only logged. */
    method UnlikePost(postId: Id, userId: string, fault: bool)
      requires Valid()
      modifies this
      ensures Valid()
      ensures users == old(users) && comments == old(comments) && edges == old(edges) && nextId == old(nextId)
      ensures fault ==> posts == old(posts)
      ensures !fault ==> match Seqs.FirstIndexOf(old(posts), PostId, postId)
        case None => posts == old(posts)
        case Some(k) => posts == old(posts)[k := old(posts)[k].(likes := Pull(old(posts)[k].likes, userId), updatedAt := old(clock))]
      ensures clock == old(clock) + (if !fault && Seqs.FirstIndexOf(old(posts), PostId, postId).Some? then 1 else 0)
    {
      if fault {
        return;
      }
      var found := Seqs.Find(posts, PostId, postId);
      if found.Some? {
        var k := found.value;
        var p := posts[k].(likes := Pull(posts[k].likes, userId), updatedAt := clock);
        ReplacePostKeepsWellFormed(posts, nextId, k, p);
        posts := posts[k := p];
        clock := clock + 1;
      }
    }

    /** `removePost`: `deleteOne` of the post with this id; its comments stay; failures are only logged. */
    method RemovePost(postId: Id, fault: bool)
      requires Valid()
      modifies this
      ensures Valid()
      ensures users == old(users) && comments == old(comments) && edges == old(edges)
      ensures nextId == old(nextId) && clock == old(clock)
      ensures fault ==> posts == old(posts)
      ensures !fault ==> match Seqs.FirstIndexOf(old(posts), PostId, postId)
        case None => posts == old(posts)
        case Some(k) => posts == old(posts)[..k] + old(posts)[k + 1..]
    {
      if fault {
        return;
      }
      var found := Seqs.Find(posts, PostId, postId);
      if found.Some? {
        var k := found.value;
        Seqs.DistinctKeysSplice(posts, PostId, k);
        Seqs.SpliceElements(posts, k);
        posts := posts[..k] + posts[k + 1..];
      }
    }

    /**
     * `commentOnPost`: `Comment.create` (which validates), then push the new id
     * onto the post's comments and save. A failing create writes nothing; a
     * failing save leaves the created comment unreferenced. Neither is rethrown.
     */
    method CommentOnPost(postId: Id, input: CommentInput, saveFault: bool)
      requires Valid()
      modifies this
      ensures Valid()
      ensures users == old(users) && edges == old(edges)
      ensures !ValidCommentInput(input) ==>
        comments == old(comments) && posts == old(posts) && nextId == old(nextId) && clock == old(clock)
      ensures ValidCommentInput(input) ==>
        && comments == old(comments) + [NewComment(old(nextId), input, old(clock))]
        && nextId == old(nextId) + 1 && clock == old(clock) + 1
      ensures ValidCommentInput(input) ==> match Seqs.FirstIndexOf(old(posts), PostId, postId)
        case None => posts == old(posts)
        case Some(k) =>
          posts == if saveFault then old(posts)
                   else old(posts)[k := old(posts)[k].(comments := old(posts)[k].comments + [old(nextId)], updatedAt := old(clock))]
    {
      var c := NewComment(nextId, input, clock);
      if !ValidComment(c) {
        return;
      }
      var found := Seqs.Find(posts, PostId, postId);
      if found.Some? && !saveFault {
        var k := found.value;
        var p := posts[k].(comments := posts[k].comments + [nextId], updatedAt := clock);
        ReplacePostKeepsWellFormed(posts, nextId, k, p);
        posts := posts[k := p];
      }
      RaiseBound(posts, comments, edges, nextId, nextId + 1);
      AppendCommentKeepsWellFormed(comments, nextId, c);
      comments := comments + [c];
      nextId := nextId + 1;
      clock := clock + 1;
    }

    /** `new User(...).save()`: schema validation first, then the unique indexes on userId and email. */
    method CreateUser(rec: UserRecord) returns (r: Result<UserRecord>)
      requires Valid()
      modifies this
      ensures Valid()
      ensures posts == old(posts) && comments == old(comments) && edges == old(edges)
      ensures nextId == old(nextId) && clock == old(clock)
      ensures !ValidUser(rec) ==> r == Err(ValidationError) && users == old(users)
      ensures ValidUser(rec) && (exists i :: 0 <= i < |old(users)| && (old(users)[i].userId == rec.userId || old(users)[i].email == rec.email)) ==>
        r == Err(DuplicateKey) && users == old(users)
      ensures ValidUser(rec) && (forall i :: 0 <= i < |old(users)| ==> old(users)[i].userId != rec.userId && old(users)[i].email != rec.email) ==>
        r == Ok(rec) && users == old(users) + [rec]
    {
      if !ValidUser(rec) {
        return Err(ValidationError);
      }
      var byId := Seqs.Find(users, UserIdOf, rec.userId);
      var byEmail := Seqs.Find(users, UserEmail, rec.email);
      if byId.Some? || byEmail.Some? {
        return Err(DuplicateKey);
      }
      Seqs.DistinctKeysAppend(users, UserIdOf, rec);
      Seqs.DistinctKeysAppend(users, UserEmail, rec);
      users := users + [rec];
      r := Ok(rec);
    }

    /** Assign the three display fields of user `k` and `save()`; the save fails if firstName is now missing. */
    method UpdateUserDisplay(k: nat, userImage: Field, firstName: Option<string>, lastName: Field)
      returns (r: Result<UserRecord>)
      requires Valid()
      requires k < |users|
      modifies this
      ensures Valid()
      ensures posts == old(posts) && comments == old(comments) && edges == old(edges)
      ensures nextId == old(nextId) && clock == old(clock)
      ensures r.Ok? <==> Present(firstName)
      ensures r.Err? ==> r == Err(ValidationError) && users == old(users)
      ensures r.Ok? ==>
        && r.value == old(users)[k].(userImage := userImage, firstName := firstName, lastName := lastName)
        && users == old(users)[k := r.value]
    {
      var rec := users[k].(userImage := userImage, firstName := firstName, lastName := lastName);
      if !ValidUser(rec) {
        return Err(ValidationError);
      }
      users := users[k := rec];
      assert forall i :: 0 <= i < |users| ==> UserIdOf(users[i]) == UserIdOf(old(users)[i]) && UserEmail(users[i]) == UserEmail(old(users)[i]);
      r := Ok(rec);
    }
  }
}
