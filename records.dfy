/**
 * The four kinds of stored document (users, posts, comments, follow edges) and
 * the Mongoose schema rules that decide whether one may be saved.
 *
 * Missing and empty text are distinguished with Option: `None` is an absent or
 * null field, `Some("")` an empty string. Mongoose's `required` validator on a
 * String rejects both, which is what `Present` tests. The optional display
 * fields of a User document (`userImage`, `lastName`) are a `Field`, which also
 * tells `null` from a missing path: `!==` and the schema default both do.
 */
module Records {
  import opened Wrappers

  /** A document id (an ObjectId), handed out by the store's counter. */
  type Id = nat

  /** `IUserLimited`: the display fields of a user, copied by value into other documents. */
  datatype Snapshot = Snapshot(
    userId: string,
    userImage: Option<string>,
    firstName: Option<string>,
    lastName: Option<string>)

  /** A text field of a JSON body or a document that may also be `null` or missing altogether. */
  datatype Field = Missing | Null | Str(text: string)

  /** A document of the User collection. */
  datatype UserRecord = UserRecord(
    userId: string,
    userImage: Field,
    firstName: Option<string>,
    lastName: Field,
    email: string)

  /** `ICommentBase`: what a caller hands to `commentOnPost`, an author snapshot and a text. */
  datatype CommentInput = CommentInput(user: Snapshot, text: string)

  /** A document of the Comment collection; `timestamps: true` gives it both dates. */
  datatype Comment = Comment(id: Id, user: Snapshot, text: string, createdAt: int, updatedAt: int)

  /** A document of the Post collection; `comments` holds comment ids in the order they were pushed. */
  datatype Post = Post(
    id: Id,
    user: Snapshot,
    text: string,
    imageUrl: Option<string>,
    comments: seq<Id>,
    likes: seq<string>,
    createdAt: int,
    updatedAt: int)

  /** A document of the Followers collection: `follower` follows `following`. */
  datatype FollowEdge = FollowEdge(id: Id, follower: Snapshot, following: Snapshot, createdAt: int, updatedAt: int)

  /**
   * A post id as it arrives in a request: the text of some ObjectId, or any other
   * text, which `ObjectId.isValid` rejects and `findById` fails to cast.
   */
  datatype IdText = ObjectIdText(id: Id) | OtherText(text: string)

  /** JavaScript truthiness of a `string | undefined`. */
  predicate Present(o: Option<string>) {
    o.Some? && o.value != ""
  }

  /** `o || ""` */
  function OrEmpty(o: Option<string>): string {
    if Present(o) then o.value else ""
  }

  /** A field as a string or nothing, where `null` and a missing path alike are nothing. */
  function AsOption(f: Field): (o: Option<string>)
    ensures o.Some? <==> f.Str?
    ensures f.Str? ==> o.value == f.text
  {
    if f.Str? then Some(f.text) else None
  }

  /** The `required: true` fields of the embedded user sub-schema (lastName is optional). */
  predicate ValidSnapshot(s: Snapshot) {
    s.userId != "" && Present(s.userImage) && Present(s.firstName)
  }

  /** UserSchema: userId, firstName and email are required; userImage and lastName are not. */
  predicate ValidUser(u: UserRecord) {
    u.userId != "" && Present(u.firstName) && u.email != ""
  }

  /** CommentSchema: a valid author snapshot and a required text. */
  predicate ValidCommentInput(c: CommentInput) {
    ValidSnapshot(c.user) && c.text != ""
  }

  predicate ValidComment(c: Comment) {
    ValidSnapshot(c.user) && c.text != ""
  }

  /** PostSchema: a valid author snapshot and a required text; imageUrl is optional. */
  predicate ValidPost(p: Post) {
    ValidSnapshot(p.user) && p.text != ""
  }

  /** FollowersSchema: both sides are full snapshots. */
  predicate ValidEdge(e: FollowEdge) {
    ValidSnapshot(e.follower) && ValidSnapshot(e.following)
  }

  /**
   * `IUserLimited = Omit<IUserDocument, "email">`: what is kept when a user
   * document is embedded in another document (the sub-schema has no email path).
   */
  function Limited(u: UserRecord): (s: Snapshot)
    ensures ValidUser(u) && Present(AsOption(u.userImage)) ==> ValidSnapshot(s)
    ensures ValidSnapshot(s) ==> u.userId != "" && Present(u.firstName) && Present(AsOption(u.userImage))
  {
    Snapshot(u.userId, AsOption(u.userImage), u.firstName, AsOption(u.lastName))
  }

  /** A snapshot never depends on the user's email. */
  lemma LimitedIgnoresEmail(u: UserRecord, email: string)
    ensures Limited(u.(email := email)) == Limited(u)
  {
  }

  /** The comment `Comment.create` stores for an input: both timestamps are the creation time. */
  function NewComment(id: Id, input: CommentInput, now: int): (c: Comment)
    ensures ValidComment(c) <==> ValidCommentInput(input)
    ensures c.createdAt == now && c.updatedAt == now
  {
    Comment(id, input.user, input.text, now, now)
  }

  /**
   * A user document as `User.findOne` hands it back: a missing `userImage`
   * reads as the schema default ""; a stored `null` stays `null`, since
   * Mongoose applies a default only to a path that is undefined.
   */
  function WithDefaults(u: UserRecord): (l: UserRecord)
    ensures !l.userImage.Missing?
    ensures u.userImage.Missing? ==> l.userImage == Str("")
    ensures !u.userImage.Missing? ==> l == u
    ensures l.userId == u.userId && l.firstName == u.firstName && l.lastName == u.lastName && l.email == u.email
  {
    if u.userImage.Missing? then u.(userImage := Str("")) else u
  }

  // Keys by which the collections are searched, as named functions.

  function PostId(p: Post): Id { p.id }
  function AuthorId(p: Post): string { p.user.userId }
  function PostCreatedAt(p: Post): int { p.createdAt }
  function CommentId(c: Comment): Id { c.id }
  function CommentAuthorId(c: Comment): string { c.user.userId }
  function CommentCreatedAt(c: Comment): int { c.createdAt }
  function EdgeId(e: FollowEdge): Id { e.id }
  function EdgePair(e: FollowEdge): (string, string) { (e.follower.userId, e.following.userId) }
  function FollowerIdOf(e: FollowEdge): string { e.follower.userId }
  function FollowingIdOf(e: FollowEdge): string { e.following.userId }
  function UserIdOf(u: UserRecord): string { u.userId }
  function UserEmail(u: UserRecord): string { u.email }
}
