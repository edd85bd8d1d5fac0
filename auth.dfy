/** auth/routes.py: registering a user and logging in. Hashing, password
    verification and token signing (auth/utils.py) are parameters. */
module Auth {
  import opened Wrappers
  import opened ObjectIds
  import opened JsonValues
  import opened Http
  import opened Store

  /** The password hasher and the token signer the routes call. `verify` gets the
      stored `password` field as it is and reports `False`, `True` or the text of
      the exception it raised. */
  datatype Crypto = Crypto(
    hash: string -> string,
    verify: (string, Json) -> Result<bool, string>,
    encode: Doc -> string)

  const InvalidRole := "Invalid role. Must be 'candidate' or 'recruiter'."
  const BadCredentials := "Invalid email or password"

  /** The two roles `register` accepts. */
  predicate IsRole(role: string) {
    role == "candidate" || role == "recruiter"
  }

  /** The user record `register` stores: the email, the hash of the password and
      the role. */
  function UserRecord(crypto: Crypto, email: string, password: string, role: string): (d: Doc)
    ensures "_id" !in d
  {
    map["email" := JStr(email), "password" := JStr(crypto.hash(password)), "role" := JStr(role)]
  }

  function RegisterResponse(email: string, role: string): Doc {
    map["message" := JStr("User registered successfully"), "email" := JStr(email), "role" := JStr(role)]
  }

  /** No two stored users share an email: no other user matches the filter on a
      user's email. */
  ghost predicate EmailsUnique(docs: map<ObjectId, Doc>) {
    forall a, b :: a in docs && b in docs && a != b && "email" in docs[a] ==>
      !MatchesEq(docs[b], "email", docs[a]["email"])
  }

  ghost predicate UniqueEmails(users: Collection)
    reads users
  {
    EmailsUnique(users.docs)
  }

  /** `register`, with `newId` the id the driver generates. The role is checked
      before the store is read; a taken email leaves the store as it was. There is
      no handler around the insert, so a refused insert escapes. */
  method Register(crypto: Crypto, users: Collection, email: string, password: string, role: string,
                  newId: ObjectId) returns (r: Result<Doc, Exception>)
    requires users.Valid()
    modifies users
    ensures users.Valid()
    ensures !IsRole(role) ==> r == Err(HTTPException(400, InvalidRole))
    ensures IsRole(role) && old(users.FindOne("email", JStr(email))).Some? ==>
              r == Err(HTTPException(400, "User already exists"))
    ensures r.Err? ==> users.docs == old(users.docs) && users.order == old(users.order)
    ensures IsRole(role) && old(users.FindOne("email", JStr(email))).None? ==>
              if newId in old(users.docs) then r == Err(Raised(DuplicateKeyError))
              else
                && r == Ok(RegisterResponse(email, role))
                && users.docs == old(users.docs)[newId := UserRecord(crypto, email, password, role)["_id" := JOid(newId)]]
                && users.order == old(users.order) + [newId]
    ensures old(UniqueEmails(users)) ==> UniqueEmails(users)
  {
    if !IsRole(role) {
      return Err(HTTPException(400, InvalidRole));
    }
    var existing := users.FindOne("email", JStr(email));
    if existing.Some? {
      return Err(HTTPException(400, "User already exists"));
    }
    users.NoneFound("email", JStr(email));
    ghost var before := users.docs;
    var record := UserRecord(crypto, email, password, role);
    r := users.InsertThen(newId, record, Raised(DuplicateKeyError), RegisterResponse(email, role));
    if r.Ok? {
      NewEmailKeepsUnique(before, newId, record["_id" := JOid(newId)], email);
    }
  }

  /** The same, on the maps: adding a user whose email no stored user matches
      keeps the emails unique. */
  lemma NewEmailKeepsUnique(docs: map<ObjectId, Doc>, id: ObjectId, d: Doc, email: string)
    requires id !in docs
    requires "email" in d && d["email"] == JStr(email)
    requires forall x :: x in docs ==> !MatchesEq(docs[x], "email", JStr(email))
    ensures EmailsUnique(docs) ==> EmailsUnique(docs[id := d])
  {
  }

  /** What `create_access_token` signs for a user: its id as a string, and its
      `email` and `role` fields (`None` when absent). */
  function TokenPayload(id: ObjectId, user: Doc): Doc {
    map["user_id" := JStr(IdString(id)), "email" := Get(user, "email"), "role" := Get(user, "role")]
  }

  function TokenResponse(token: string): Doc {
    map["access_token" := JStr(token), "token_type" := JStr("bearer")]
  }

  /** `login` once the user stored under `id` has been found: its password is
      checked, then its `email` and `role` are read (a missing field raises
      `KeyError`), then the token is issued. */
  function Authenticate(crypto: Crypto, id: ObjectId, user: Doc, password: string): (r: Result<Doc, Exception>)
    ensures r.Ok? ==> r.value == TokenResponse(crypto.encode(TokenPayload(id, user)))
    ensures r.Ok? <==> "password" in user && crypto.verify(password, user["password"]) == Ok(true)
                       && "email" in user && "role" in user
  {
    if "password" !in user then Err(Raised("'password'"))
    else match crypto.verify(password, user["password"])
      case Err(m) => Err(Raised(m))
      case Ok(false) => Err(HTTPException(401, BadCredentials))
      case Ok(true) =>
        if "email" !in user then Err(Raised("'email'"))
        else if "role" !in user then Err(Raised("'role'"))
        else Ok(TokenResponse(crypto.encode(TokenPayload(id, user))))
  }

  /** `login`: the first user whose email matches, authenticated. It writes nothing. */
  method Login(crypto: Crypto, users: Collection, email: string, password: string) returns (r: Result<Doc, Exception>)
    requires users.Valid()
    ensures users.FindOne("email", JStr(email)).None? ==> r == Err(HTTPException(401, BadCredentials))
    ensures users.FindOne("email", JStr(email)).Some? ==>
              var id := users.FindOne("email", JStr(email)).value;
              r == Authenticate(crypto, id, users.docs[id], password)
  {
    var hit := users.FindOne("email", JStr(email));
    if hit.None? {
      return Err(HTTPException(401, BadCredentials));
    }
    var user := users.docs[hit.value];
    if "password" !in user {
      return Err(Raised("'password'"));
    }
    var ok := crypto.verify(password, user["password"]);
    if ok.Err? {
      return Err(Raised(ok.error));
    }
    if !ok.value {
      return Err(HTTPException(401, BadCredentials));
    }
    if "email" !in user {
      return Err(Raised("'email'"));
    }
    if "role" !in user {
      return Err(Raised("'role'"));
    }
    var token := crypto.encode(map["user_id" := JStr(IdString(user["_id"].oid)),
                                   "email" := Get(user, "email"), "role" := Get(user, "role")]);
    return Ok(TokenResponse(token));
  }

  /** With unique emails, the user stored with an email is the one `login` finds. */
  lemma StoredUserIsFound(users: Collection, id: ObjectId, email: string)
    requires users.Valid() && UniqueEmails(users)
    requires id in users.docs && "email" in users.docs[id] && users.docs[id]["email"] == JStr(email)
    ensures users.FindOne("email", JStr(email)) == Some(id)
  {
    var k :| 0 <= k < |users.order| && users.order[k] == id;
    assert users.Hit(users.order[k], "email", JStr(email));
  }

  /** A registered user logs in with the password it registered with, provided the
      verifier accepts a password against its own hash; the token carries the
      user's id, email and role. */
  lemma RegisteredUserLogsIn(crypto: Crypto, id: ObjectId, email: string, password: string, role: string)
    requires crypto.verify(password, JStr(crypto.hash(password))) == Ok(true)
    ensures Authenticate(crypto, id, UserRecord(crypto, email, password, role)["_id" := JOid(id)], password)
            == Ok(TokenResponse(crypto.encode(map["user_id" := JStr(IdString(id)), "email" := JStr(email),
                                                  "role" := JStr(role)])))
  {
    var user := UserRecord(crypto, email, password, role)["_id" := JOid(id)];
    assert TokenPayload(id, user) == map["user_id" := JStr(IdString(id)), "email" := JStr(email), "role" := JStr(role)];
  }

  /** A wrong password gets the very answer an unknown email gets. */
  lemma WrongPasswordLooksUnknown(crypto: Crypto, id: ObjectId, user: Doc, password: string)
    requires "password" in user && crypto.verify(password, user["password"]) == Ok(false)
    ensures Authenticate(crypto, id, user, password) == Err(HTTPException(401, BadCredentials))
  {
  }

  /** The stored record holds the hash, never the password itself, unless the
      hasher returns its input. */
  lemma PasswordNotStored(crypto: Crypto, email: string, password: string, role: string)
    requires crypto.hash(password) != password
    ensures UserRecord(crypto, email, password, role)["password"] != JStr(password)
  {
  }
}
