/**
 * Account handlers (src/controllers/authController.js): `register` appends
 * a client to the users collection, `login` checks a password. bcrypt and
 * jsonwebtoken come in as the functions `hash`, `compare` and `sign`.
 */
module AuthController {
  import opened Wrappers
  import opened Http
  import opened ObjectIds
  import opened Crypto
  import opened UserModel

  /** The register body; `role` is what a client may send besides the fields read, and is ignored. */
  datatype RegisterBody = RegisterBody(
    fullName: Option<string>,
    phone: Option<string>,
    email: Option<string>,
    address: Option<string>,
    password: Option<string>,
    role: Option<string>)

  /** The `user` object of the reply: no password hash, no address. */
  datatype PublicUser = PublicUser(id: DocId, fullName: Option<string>, email: Option<string>, phone: Option<string>, role: string)

  /** The body of a successful register or login: `{ token, user }`. */
  datatype Session = Session(token: string, user: PublicUser)

  const InvalidCredentials: string := "Identifiants invalides"
  const EmailInUse: string := "Email déjà utilisé"
  const ServerFailure: string := "Erreur serveur"

  function PublicOf(u: UserDoc): PublicUser
  {
    PublicUser(u.id, u.fullName, u.email, u.phone, RoleOf(u))
  }

  /** The session for a user: a token for `{ id, role }` valid for seven days. */
  function SessionFor(u: UserDoc, sign: Signer): Session
  {
    Session(sign(Claims(IdText(u.id), RoleOf(u)), SevenDays), PublicOf(u))
  }

  /** The document `User.create` builds: the body's fields, the hash in place of the password, role "client". */
  function NewUserDocument(body: RegisterBody, passwordHash: string, now: int, newId: ObjectId): UserDoc
  {
    UserDoc(Oid(newId), body.fullName, body.phone, body.email, body.address,
            Some(passwordHash), Some(DefaultRole), Some(now), Some(now))
  }

  /**
   * `register`. A taken email is 400. bcrypt refuses a missing password, and
   * validation a missing field; those, and a duplicate key, are 500.
   */
  function RegisterOutcome(docs: seq<UserDoc>, body: RegisterBody, hash: Hasher, sign: Signer,
                           now: int, newId: ObjectId): Outcome<Session, UserDoc>
  {
    if IndexOfEmail(docs, body.email) < |docs| then Outcome(Fail(BadRequest, EmailInUse), docs)
    else if body.password.None? then Outcome(Fail(ServerError, ServerFailure), docs)
    else
      var user := NewUserDocument(body, hash(body.password.value), now, newId);
      if !UserValid(user) || !Insertable(docs, user) then Outcome(Fail(ServerError, ServerFailure), docs)
      else Outcome(Json(SessionFor(user, sign)), docs + [user])
  }

  method Register(users: UserCollection, body: RegisterBody, hash: Hasher, sign: Signer,
                  now: int, newId: ObjectId) returns (reply: Reply<Session>)
    requires users.Valid()
    modifies users
    ensures users.Valid()
    ensures Outcome(reply, users.docs) == RegisterOutcome(old(users.docs), body, hash, sign, now, newId)
  {
    var found := IndexOfEmail(users.docs, body.email);
    if found < |users.docs| {
      return Fail(BadRequest, EmailInUse);
    }
    if body.password.None? {
      return Fail(ServerError, ServerFailure);
    }
    var passwordHash := hash(body.password.value);
    var newUser := NewUserDocument(body, passwordHash, now, newId);
    if !UserValid(newUser) {
      return Fail(ServerError, ServerFailure);
    }
    var inserted := users.Insert(newUser);
    if !inserted {
      return Fail(ServerError, ServerFailure);
    }
    reply := Json(SessionFor(newUser, sign));
  }

  /** A taken email is refused with 400 and the collection is unchanged. */
  lemma RegisterTakenEmail(docs: seq<UserDoc>, body: RegisterBody, hash: Hasher, sign: Signer, now: int, newId: ObjectId)
    requires EmailTaken(docs, body.email)
    ensures RegisterOutcome(docs, body, hash, sign, now, newId) == Outcome(Fail(400, "Email déjà utilisé"), docs)
  {
    IndexOfEmailFinds(docs, body.email);
  }

  /** Register keeps emails (and `_id`s) unique, and adds at most one user. */
  lemma RegisterKeepsEmailsUnique(docs: seq<UserDoc>, body: RegisterBody, hash: Hasher, sign: Signer, now: int, newId: ObjectId)
    requires EmailsUnique(docs) && UserModel.IdsUnique(docs)
    ensures var out := RegisterOutcome(docs, body, hash, sign, now, newId);
      EmailsUnique(out.docs) && UserModel.IdsUnique(out.docs)
      && (if out.reply.Json? then |out.docs| == |docs| + 1 && out.docs[..|docs|] == docs else out.docs == docs)
  {
    var out := RegisterOutcome(docs, body, hash, sign, now, newId);
    if out.reply.Json? {
      assert out.docs[..|docs|] == docs;
    }
  }

  /**
   * A registered user is a "client" whatever the body says, stores the hash of
   * the password and never the password, and the token carries its new id and
   * role for seven days.
   */
  lemma RegisteredUser(docs: seq<UserDoc>, body: RegisterBody, hash: Hasher, sign: Signer, now: int, newId: ObjectId)
    requires RegisterOutcome(docs, body, hash, sign, now, newId).reply.Json?
    ensures var out := RegisterOutcome(docs, body, hash, sign, now, newId);
      var u := out.docs[|docs|];
      && |out.docs| == |docs| + 1
      && u.role == Some("client")
      && u.passwordHash == Some(hash(body.password.value))
      && u.email == body.email && u.fullName == body.fullName && u.phone == body.phone && u.address == body.address
      && u.createdAt == Some(now) && u.updatedAt == Some(now)
      && out.reply.body.token == sign(Claims(newId.hex, "client"), SevenDays)
      && out.reply.body.user == PublicUser(Oid(newId), body.fullName, body.email, body.phone, "client")
  {
  }

  /** A register succeeds exactly when the email is free, the password given, the required fields non-empty and the `_id` free. */
  lemma RegisterSucceedsIff(docs: seq<UserDoc>, body: RegisterBody, hash: Hasher, sign: Signer, now: int, newId: ObjectId)
    ensures var out := RegisterOutcome(docs, body, hash, sign, now, newId);
      var accepted := !EmailTaken(docs, body.email) && body.password.Some?
        && Truthy(body.fullName) && Truthy(body.phone) && Truthy(body.email) && hash(body.password.value) != ""
        && forall i :: 0 <= i < |docs| ==> docs[i].id != Oid(newId);
      (out.reply.Json? <==> accepted)
  {
    IndexOfEmailFinds(docs, body.email);
    if IndexOfEmail(docs, body.email) == |docs| && body.password.Some? {
      var user := NewUserDocument(body, hash(body.password.value), now, newId);
      assert !EmailTaken(docs, body.email);
      assert Insertable(docs, user) <==> forall i :: 0 <= i < |docs| ==> docs[i].id != Oid(newId);
    }
  }

  /** `login`: a missing user and a wrong password give the same 400; bcrypt throws (500) on a missing password or hash. */
  function LoginOutcome(docs: seq<UserDoc>, email: Option<string>, password: Option<string>,
                        compare: Comparer, sign: Signer): Reply<Session>
  {
    var i := IndexOfEmail(docs, email);
    if i == |docs| then Fail(BadRequest, InvalidCredentials)
    else if password.None? || docs[i].passwordHash.None? then Fail(ServerError, ServerFailure)
    else if !compare(password.value, docs[i].passwordHash.value) then Fail(BadRequest, InvalidCredentials)
    else Json(SessionFor(docs[i], sign))
  }

  /** An unknown email and a wrong password are indistinguishable to the caller. */
  lemma LoginFailuresIdentical(docs: seq<UserDoc>, email: Option<string>, password: Option<string>,
                               compare: Comparer, sign: Signer)
    ensures !EmailTaken(docs, email) ==> LoginOutcome(docs, email, password, compare, sign) == Fail(400, "Identifiants invalides")
    ensures var i := IndexOfEmail(docs, email);
      i < |docs| && password.Some? && docs[i].passwordHash.Some? && !compare(password.value, docs[i].passwordHash.value)
      ==> LoginOutcome(docs, email, password, compare, sign) == Fail(400, "Identifiants invalides")
  {
    IndexOfEmailFinds(docs, email);
  }

  /** A successful login answers with the user found by email, its hydrated role, and no password hash. */
  lemma LoginSuccess(docs: seq<UserDoc>, email: Option<string>, password: Option<string>, compare: Comparer, sign: Signer)
    requires LoginOutcome(docs, email, password, compare, sign).Json?
    ensures var s := LoginOutcome(docs, email, password, compare, sign).body;
      exists i :: 0 <= i < |docs| && docs[i].email == email
        && s.user == PublicUser(docs[i].id, docs[i].fullName, docs[i].email, docs[i].phone, RoleOf(docs[i]))
        && s.token == sign(Claims(IdText(docs[i].id), RoleOf(docs[i])), SevenDays)
        && password.Some? && docs[i].passwordHash.Some?
        && compare(password.value, docs[i].passwordHash.value)
  {
    var i := IndexOfEmail(docs, email);
    assert docs[i].email == email;
  }

  /**
   * Round trip: when `compare` accepts every password against its own hash,
   * logging in right after registering succeeds with the same session.
   */
  lemma LoginAfterRegister(docs: seq<UserDoc>, body: RegisterBody, hash: Hasher, compare: Comparer, sign: Signer,
                           now: int, newId: ObjectId)
    requires forall p :: compare(p, hash(p))
    requires RegisterOutcome(docs, body, hash, sign, now, newId).reply.Json?
    ensures var out := RegisterOutcome(docs, body, hash, sign, now, newId);
      LoginOutcome(out.docs, body.email, body.password, compare, sign) == out.reply
  {
    var out := RegisterOutcome(docs, body, hash, sign, now, newId);
    var user := out.docs[|docs|];
    IndexOfEmailFinds(docs, body.email);
    IndexOfEmailAppend(docs, user, body.email);
    assert compare(body.password.value, hash(body.password.value));
  }
}
