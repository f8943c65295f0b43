/**
 * The user upsert route (app/api/auth/route.ts): register a user on first
 * sign-in, refresh their display fields when they changed, and leave the
 * record alone otherwise.
 *
 * `Upsert` is the route as a function of the User collection; `PostAuth`
 * performs it on the store. `connectFault` stands for a failure inside the
 * handler's `try` before the lookup, which answers 500.
 */
module AuthRoute {
  import opened Wrappers
  import opened Records
  import opened Responses
  import Seqs
  import Store

  const Updated := "User profile updated successfully"
  const UpToDate := "User already exists and is up-to-date"
  const Registered := "User registered successfully"
  const ServerError := "Server error"

  /** The request's `email`: a string, an object with an `address`, or absent. */
  datatype EmailField = EmailText(text: string) | EmailObject(address: Option<string>) | NoEmail

  /**
   * The JSON body the route reads. `userImage` and `lastName` keep JSON's
   * three cases, which the `!==` comparison and the assignment tell apart. A
   * null or absent `firstName` is None: either fails the required validator,
   * and a stored first name is always a non-empty string.
   */
  datatype AuthPayload = AuthPayload(
    userId: string,
    userImage: Field,
    firstName: Option<string>,
    lastName: Field,
    email: EmailField)

  /** What one request does: the User collection afterwards, the reply, and whether a document was saved. */
  datatype UpsertResult = UpsertResult(users: seq<UserRecord>, reply: Reply<UserRecord>, wrote: bool)

  /** The email a new record gets: the string itself, else the object's address, else "". */
  function NormaliseEmail(e: EmailField): (r: string)
    ensures r != "" ==> (e.EmailText? && e.text == r) || (e.EmailObject? && e.address == Some(r))
    ensures e.EmailText? ==> r == e.text
    ensures e.NoEmail? ==> r == ""
  {
    match e
    case EmailText(t) => t
    case EmailObject(a) => OrEmpty(a)
    case NoEmail => ""
  }

  /** The record a first request creates; a missing, null or empty image and last name become "". */
  function NewUser(p: AuthPayload): (u: UserRecord)
    ensures u.userId == p.userId && u.firstName == p.firstName && u.email == NormaliseEmail(p.email)
    ensures u.userImage.Str? && u.lastName.Str?
    ensures Present(AsOption(p.userImage)) ==> u.userImage == p.userImage
    ensures !Present(AsOption(p.userImage)) ==> u.userImage == Str("")
    ensures Present(AsOption(p.lastName)) ==> u.lastName == p.lastName
    ensures !Present(AsOption(p.lastName)) ==> u.lastName == Str("")
  {
    UserRecord(p.userId, Str(OrEmpty(AsOption(p.userImage))), p.firstName, Str(OrEmpty(AsOption(p.lastName))),
               NormaliseEmail(p.email))
  }

  /** The stored display fields differ from the request's (`!==`, so `null` differs from a missing field): any of first name, last name, image. */
  predicate Outdated(u: UserRecord, p: AuthPayload) {
    u.firstName != p.firstName || u.lastName != p.lastName || u.userImage != p.userImage
  }

  /** The route as written, as a function of the User collection. */
  function Upsert(users: seq<UserRecord>, p: AuthPayload, connectFault: bool): (o: UpsertResult)
    ensures o.wrote <==> o.reply.status == 201 || (o.reply.body.Message? && o.reply.body.text == Updated)
    ensures !o.wrote ==> o.users == users
    ensures o.reply.status in {200, 201, 500}
    ensures connectFault ==> o == UpsertResult(users, Reply(500, Failure(ServerError)), false)
    ensures !connectFault && Seqs.FirstIndexOf(users, UserIdOf, p.userId).None? ==>
      && (o.wrote <==> ValidUser(NewUser(p)) && forall i :: 0 <= i < |users| ==> users[i].email != NewUser(p).email)
      && (o.wrote ==> o.users == users + [NewUser(p)] && o.reply == Reply(201, Message(Registered, Some(NewUser(p)))))
      && (!o.wrote ==> o.reply == Reply(500, Failure(ServerError)))
    ensures !connectFault && Seqs.FirstIndexOf(users, UserIdOf, p.userId).Some? ==>
      var k := Seqs.FirstIndexOf(users, UserIdOf, p.userId).value;
      && (!Outdated(WithDefaults(users[k]), p) ==> o.reply == Reply(200, Message(UpToDate, None)))
      && (ValidUser(users[k]) ==> (o.wrote <==> Outdated(WithDefaults(users[k]), p) && Present(p.firstName)))
      && (o.wrote ==> o.users == users[k := users[k].(firstName := p.firstName, lastName := p.lastName, userImage := p.userImage)])
      && (o.wrote ==> o.reply == Reply(200, Message(Updated, Some(o.users[k]))))
      && (Outdated(WithDefaults(users[k]), p) && !o.wrote ==> o.reply == Reply(500, Failure(ServerError)))
  {
    if connectFault then UpsertResult(users, Reply(500, Failure(ServerError)), false)
    else match Seqs.FirstIndexOf(users, UserIdOf, p.userId)
      case Some(k) =>
        var cur := WithDefaults(users[k]);
        if !Outdated(cur, p) then UpsertResult(users, Reply(200, Message(UpToDate, None)), false)
        else
          var rec := cur.(firstName := p.firstName, lastName := p.lastName, userImage := p.userImage);
          if ValidUser(rec) then UpsertResult(users[k := rec], Reply(200, Message(Updated, Some(rec))), true)
          else UpsertResult(users, Reply(500, Failure(ServerError)), false)
      case None =>
        var rec := NewUser(p);
        if ValidUser(rec) && forall i :: 0 <= i < |users| ==> users[i].email != rec.email then
          UpsertResult(users + [rec], Reply(201, Message(Registered, Some(rec))), true)
        else UpsertResult(users, Reply(500, Failure(ServerError)), false)
  }

  /** POST: the upsert performed on the store. */
  method PostAuth(store: Store.Store, p: AuthPayload, connectFault: bool) returns (r: Reply<UserRecord>)
    requires store.Valid()
    modifies store
    ensures store.Valid()
    ensures store.posts == old(store.posts) && store.comments == old(store.comments) && store.edges == old(store.edges)
    ensures store.nextId == old(store.nextId) && store.clock == old(store.clock)
    ensures store.users == Upsert(old(store.users), p, connectFault).users
    ensures r == Upsert(old(store.users), p, connectFault).reply
  {
    if connectFault {
      return Reply(500, Failure(ServerError));
    }
    var found := Seqs.Find(store.users, UserIdOf, p.userId);
    if found.Some? {
      var k := found.value;
      var cur := WithDefaults(store.users[k]);
      if !Outdated(cur, p) {
        return Reply(200, Message(UpToDate, None));
      }
      var saved := store.UpdateUserDisplay(k, p.userImage, p.firstName, p.lastName);
      if saved.Err? {
        return Reply(500, Failure(ServerError));
      }
      return Reply(200, Message(Updated, Some(saved.value)));
    }
    var created := store.CreateUser(NewUser(p));
    if created.Err? {
      return Reply(500, Failure(ServerError));
    }
    r := Reply(201, Message(Registered, Some(created.value)));
  }

  /** The route never changes a stored user's id or email, and only ever appends a record for the requested id. */
  lemma UpsertKeepsIdentity(users: seq<UserRecord>, p: AuthPayload, connectFault: bool)
    ensures var o := Upsert(users, p, connectFault);
      && (|o.users| == |users| || (|o.users| == |users| + 1 && o.users[|users|].userId == p.userId))
      && forall i :: 0 <= i < |users| ==> o.users[i].userId == users[i].userId && o.users[i].email == users[i].email
  {
  }

  /** After a request that succeeded, the record for the requested id carries the requested first name. */
  lemma UpsertStoresFirstName(users: seq<UserRecord>, p: AuthPayload, connectFault: bool)
    requires Upsert(users, p, connectFault).reply.status != 500
    ensures var o := Upsert(users, p, connectFault);
      exists i :: 0 <= i < |o.users| && o.users[i].userId == p.userId && o.users[i].firstName == p.firstName
  {
    var o := Upsert(users, p, connectFault);
    match Seqs.FirstIndexOf(users, UserIdOf, p.userId)
    case Some(k) =>
      assert o.users[k].userId == p.userId;
    case None =>
      assert o.users[|users|] == NewUser(p);
  }

  /**
   * When the request carries an image and a last name, repeating a request
   * that succeeded writes nothing: the record now matches the request.
   */
  lemma {:induction false} RepeatWithFullPayloadWritesNothing(users: seq<UserRecord>, p: AuthPayload)
    requires p.userImage.Str? && p.lastName.Str?
    requires Upsert(users, p, false).reply.status != 500
    ensures var o := Upsert(users, p, false);
      !Upsert(o.users, p, false).wrote && Upsert(o.users, p, false).users == o.users
  {
    var o := Upsert(users, p, false);
    match Seqs.FirstIndexOf(users, UserIdOf, p.userId)
    case Some(k) =>
      if o.wrote {
        assert Seqs.FirstIndexOf(o.users, UserIdOf, p.userId) == Some(k) by {
          assert forall j :: 0 <= j < k ==> o.users[j] == users[j];
          assert UserIdOf(o.users[k]) == p.userId;
        }
        assert !Outdated(WithDefaults(o.users[k]), p);
      }
    case None =>
      var rec := NewUser(p);
      assert Seqs.FirstIndexOf(o.users, UserIdOf, p.userId) == Some(|users|) by {
        assert forall j :: 0 <= j < |users| ==> o.users[j] == users[j];
        assert o.users[|users|] == rec;
      }
      assert WithDefaults(rec) == rec;
  }

  /**
   * For a registered user, a request whose `userImage` is a string or `null`
   * settles after one write: the assignment stores each field as sent, and it
   * reads back the same, since the default applies only to a missing path.
   */
  lemma {:induction false} RepeatForRegisteredUserWritesNothing(users: seq<UserRecord>, p: AuthPayload)
    requires Seqs.FirstIndexOf(users, UserIdOf, p.userId).Some?
    requires !p.userImage.Missing?
    requires Upsert(users, p, false).reply.status != 500
    ensures var o := Upsert(users, p, false);
      !Upsert(o.users, p, false).wrote && Upsert(o.users, p, false).users == o.users
  {
    var o := Upsert(users, p, false);
    var k := Seqs.FirstIndexOf(users, UserIdOf, p.userId).value;
    if o.wrote {
      assert Seqs.FirstIndexOf(o.users, UserIdOf, p.userId) == Some(k) by {
        assert forall j :: 0 <= j < k ==> o.users[j] == users[j];
        assert UserIdOf(o.users[k]) == p.userId;
      }
      assert !Outdated(WithDefaults(o.users[k]), p);
    }
  }

  /** A stored `null` image and a request carrying `null` again: nothing is outdated and nothing is saved. */
  lemma NullImageRepeatIsUpToDate()
    ensures var users := [UserRecord("u1", Null, Some("Ann"), Str(""), "a@x")];
      var p := AuthPayload("u1", Null, Some("Ann"), Str(""), EmailText("a@x"));
      Upsert(users, p, false) == UpsertResult(users, Reply(200, Message(UpToDate, None)), false)
  {
    var users := [UserRecord("u1", Null, Some("Ann"), Str(""), "a@x")];
    assert Seqs.FirstIndexOf(users, UserIdOf, "u1") == Some(0);
  }

  /**
   * As written, a request without a `userImage` field for a registered user
   * always saves: the stored image reads back as "" (the schema default) or
   * as a string or `null` stored before, and never equals the missing field,
   * so the record is rewritten on every sign-in.
   */
  lemma ImagelessRequestAlwaysWrites(users: seq<UserRecord>, p: AuthPayload)
    requires p.userImage.Missing? && Present(p.firstName)
    requires forall i :: 0 <= i < |users| ==> ValidUser(users[i])
    requires exists i :: 0 <= i < |users| && users[i].userId == p.userId
    ensures Upsert(users, p, false).wrote
  {
    assert Seqs.FirstIndexOf(users, UserIdOf, p.userId).Some?;
  }

  /** A concrete run: the same request without a `userImage` field, sent three times, saves three times. */
  lemma ImagelessRequestNeverSettles()
    ensures var p := AuthPayload("u1", Missing, Some("Ann"), Str("Lee"), EmailText("ann@example.com"));
      var o1 := Upsert([], p, false);
      var o2 := Upsert(o1.users, p, false);
      var o3 := Upsert(o2.users, p, false);
      o1.wrote && o2.wrote && o3.wrote
  {
    var p := AuthPayload("u1", Missing, Some("Ann"), Str("Lee"), EmailText("ann@example.com"));
    var o1 := Upsert([], p, false);
    assert o1.users == [NewUser(p)];
    assert o1.users[0].userId == p.userId;
    ImagelessRequestAlwaysWrites(o1.users, p);
    var o2 := Upsert(o1.users, p, false);
    assert o2.users[0].userId == "u1";
    ImagelessRequestAlwaysWrites(o2.users, p);
  }

  /** The request with the defaults the create branch applies: a missing, null or empty image or last name becomes "". */
  function Normalise(p: AuthPayload): (q: AuthPayload)
    ensures q.userImage.Str? && q.lastName.Str?
    ensures q.userId == p.userId && q.firstName == p.firstName && q.email == p.email
    ensures NewUser(q) == NewUser(p)
  {
    p.(userImage := Str(OrEmpty(AsOption(p.userImage))), lastName := Str(OrEmpty(AsOption(p.lastName))))
  }

  /** The intended upsert: compare and store the same defaulted values the create branch stores. */
  function UpsertNormalised(users: seq<UserRecord>, p: AuthPayload, connectFault: bool): (o: UpsertResult)
    ensures !connectFault && Seqs.FirstIndexOf(users, UserIdOf, p.userId).None? ==>
      (o.wrote <==> Upsert(users, p, false).wrote)
    ensures o.wrote ==>
      exists i :: 0 <= i < |o.users| && o.users[i].userId == p.userId
        && o.users[i].userImage == Str(OrEmpty(AsOption(p.userImage))) && o.users[i].lastName == Str(OrEmpty(AsOption(p.lastName)))
  {
    NormalisedStoresDefaults(users, p, connectFault);
    Upsert(users, Normalise(p), connectFault)
  }

  lemma NormalisedStoresDefaults(users: seq<UserRecord>, p: AuthPayload, connectFault: bool)
    ensures var o := Upsert(users, Normalise(p), connectFault);
      && (!connectFault && Seqs.FirstIndexOf(users, UserIdOf, p.userId).None? ==>
            (o.wrote <==> Upsert(users, p, false).wrote))
      && (o.wrote ==>
            exists i :: 0 <= i < |o.users| && o.users[i].userId == p.userId
              && o.users[i].userImage == Str(OrEmpty(AsOption(p.userImage))) && o.users[i].lastName == Str(OrEmpty(AsOption(p.lastName))))
  {
    var o := Upsert(users, Normalise(p), connectFault);
    assert Normalise(p).userId == p.userId && NewUser(Normalise(p)) == NewUser(p);
    if o.wrote {
      match Seqs.FirstIndexOf(users, UserIdOf, p.userId)
      case Some(k) =>
        assert o.users[k].userId == p.userId;
      case None =>
        assert o.users[|users|] == NewUser(p);
    }
  }

  /** With the defaults applied, any request that succeeded can be repeated without another write. */
  lemma NormalisedUpsertSettles(users: seq<UserRecord>, p: AuthPayload)
    requires UpsertNormalised(users, p, false).reply.status != 500
    ensures var o := UpsertNormalised(users, p, false);
      !UpsertNormalised(o.users, p, false).wrote && UpsertNormalised(o.users, p, false).users == o.users
  {
    RepeatWithFullPayloadWritesNothing(users, Normalise(p));
  }
}
