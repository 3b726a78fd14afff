/** The user handlers: register, log in, and read, update or delete the
    requester's own account.  Passwords are stored only as digests made by
    the `hash` parameter and compared by the `matches` parameter; the token
    a handler issues is represented by the claims it signs. */
module Users {
  import opened Common
  import opened Access
  import opened Database
  import opened AuthMiddleware

  /** The validated body of POST /users/register. */
  datatype RegisterInput = RegisterInput(name: string, email: string, password: string,
                                         currentLanguageId: Option<string>)

  /** The validated body of PUT /users/me: `None` is a field left out;
      the language takes `Some(None)` for an explicit null. */
  datatype UserPatch = UserPatch(name: Option<string>, email: Option<string>, password: Option<string>,
                                 currentLanguageId: Option<Option<Id>>)

  /** What `generateToken` signs: the user's id and email, and no role. */
  datatype TokenClaims = TokenClaims(userId: Id, email: string)

  /** The payload a verified token of these claims decodes to. */
  function ClaimsPayload(c: TokenClaims): Json {
    JObject(map["userId" := JString(c.userId), "email" := JString(c.email)])
  }

  /** Some user other than `self` has this email. */
  predicate TakenByOther(users: map<Id, User>, email: string, self: Id) {
    exists id :: id in users && users[id].email == email && id != self
  }

  /** `user` is `before` with exactly the supplied fields replaced (the
      password by its digest) and the update time set. */
  predicate UserPatched(before: User, after: User, patch: UserPatch, now: int, hash: string -> PasswordHash) {
    && after.id == before.id
    && after.name == (if patch.name.Some? then patch.name.value else before.name)
    && after.email == (if patch.email.Some? then patch.email.value else before.email)
    && after.password == (if patch.password.Some? then hash(patch.password.value) else before.password)
    && after.currentLanguageId ==
         (if patch.currentLanguageId.Some? then patch.currentLanguageId.value else before.currentLanguageId)
    && after.createdAt == before.createdAt
    && after.updatedAt == now
  }

  /** POST /users/register: 409 when the email is registered; otherwise one
      new row holding the digest (never the password), with the language
      kept only when it is a non-empty string, and a token for the new
      user's id and email. */
  method RegisterUser(db: Db, input: RegisterInput, newId: Id, now: int, hash: string -> PasswordHash)
    returns (status: nat, user: Option<PublicUser>, claims: Option<TokenClaims>)
    requires db.Valid()
    requires newId !in db.users
    modifies db`users
    ensures db.Valid()
    ensures EmailTaken(old(db.users), input.email) ==>
      status == 409 && user.None? && claims.None? && db.users == old(db.users)
    ensures !EmailTaken(old(db.users), input.email) ==>
      var row := User(newId, input.name, input.email, hash(input.password),
                      if NonEmpty(input.currentLanguageId) then input.currentLanguageId else None, now, now);
      && status == 201
      && db.users == old(db.users)[newId := row]
      && user == Some(ToPublic(row))
      && claims == Some(TokenClaims(newId, input.email))
  {
    if existing :| existing in db.users && db.users[existing].email == input.email {
      return 409, None, None;
    }
    var hashedPassword := hash(input.password);
    var currentLanguageId := if NonEmpty(input.currentLanguageId) then input.currentLanguageId else None;
    var newUser := User(newId, input.name, input.email, hashedPassword, currentLanguageId, now, now);
    db.users := db.users[newId := newUser];
    return 201, Some(ToPublic(newUser)), Some(TokenClaims(newUser.id, newUser.email));
  }

  /** POST /users/login: 401 for an unknown email and for a password that
      does not match the stored digest; otherwise the public user and a
      token for its id and email.  Emails are unique, so the user found by
      email is the only one. */
  method LoginUser(db: Db, email: string, password: string, matches: (string, PasswordHash) -> bool)
    returns (status: nat, user: Option<PublicUser>, claims: Option<TokenClaims>)
    requires db.Valid()
    ensures !EmailTaken(db.users, email) ==> status == 401 && user.None? && claims.None?
    ensures forall id :: id in db.users && db.users[id].email == email ==>
      if matches(password, db.users[id].password)
      then status == 200 && user == Some(ToPublic(db.users[id])) && claims == Some(TokenClaims(id, email))
      else status == 401 && user.None? && claims.None?
  {
    if found :| found in db.users && db.users[found].email == email {
      var u := db.users[found];
      if !matches(password, u.password) {
        return 401, None, None;
      }
      return 200, Some(ToPublic(u)), Some(TokenClaims(u.id, u.email));
    }
    return 401, None, None;
  }

  /** GET /users/me: 401 without a user id, 404 when the account is gone,
      else the requester's own row without its password. */
  method GetCurrentUser(db: Db, p: Principal) returns (status: nat, user: Option<PublicUser>)
    ensures !Authenticated(p) ==> status == 401 && user.None?
    ensures Authenticated(p) && p.userId.value !in db.users ==> status == 404 && user.None?
    ensures Authenticated(p) && p.userId.value in db.users ==>
      status == 200 && user == Some(ToPublic(db.users[p.userId.value]))
  {
    var userId := p.userId;
    if !NonEmpty(userId) {
      return 401, None;
    }
    if userId.value !in db.users {
      return 404, None;
    }
    return 200, Some(ToPublic(db.users[userId.value]));
  }

  /** PUT /users/me: 401, then 409 when the new email belongs to another
      user (the requester's own email is no conflict), then 404 when the
      account is gone, else only the supplied fields change.  Emails stay
      unique. */
  method UpdateCurrentUser(db: Db, p: Principal, patch: UserPatch, now: int, hash: string -> PasswordHash)
    returns (status: nat, user: Option<PublicUser>)
    requires db.Valid()
    modifies db`users
    ensures db.Valid()
    ensures status == 200 ==> p.userId.Some? && p.userId.value in db.users && user == Some(ToPublic(db.users[p.userId.value]))
    ensures status != 200 ==> user.None?
    ensures !Authenticated(p) ==> status == 401 && db.users == old(db.users)
    ensures Authenticated(p) && patch.email.Some? && TakenByOther(old(db.users), patch.email.value, p.userId.value) ==>
      status == 409 && db.users == old(db.users)
    ensures Authenticated(p) && !(patch.email.Some? && TakenByOther(old(db.users), patch.email.value, p.userId.value))
            && p.userId.value !in old(db.users) ==>
      status == 404 && db.users == old(db.users)
    ensures Authenticated(p) && !(patch.email.Some? && TakenByOther(old(db.users), patch.email.value, p.userId.value))
            && p.userId.value in old(db.users) ==>
      var uid := p.userId.value;
      && status == 200
      && uid in db.users
      && db.users == old(db.users)[uid := db.users[uid]]
      && UserPatched(old(db.users)[uid], db.users[uid], patch, now, hash)
  {
    var userId := p.userId;
    if !NonEmpty(userId) {
      return 401, None;
    }
    var uid := userId.value;
    if patch.email.Some? {
      if found :| found in db.users && db.users[found].email == patch.email.value {
        if found != uid {
          return 409, None;
        }
      }
    }
    if uid !in db.users {
      return 404, None;
    }
    var updated := db.users[uid].(updatedAt := now);
    if patch.name.Some? {
      updated := updated.(name := patch.name.value);
    }
    if patch.email.Some? {
      updated := updated.(email := patch.email.value);
    }
    if patch.password.Some? {
      updated := updated.(password := hash(patch.password.value));
    }
    if patch.currentLanguageId.Some? {
      updated := updated.(currentLanguageId := patch.currentLanguageId.value);
    }
    db.users := db.users[uid := updated];
    return 200, Some(ToPublic(updated));
  }

  /** DELETE /users/me: 401, 404 when the account is gone, else 204 with
      exactly that row removed. */
  method DeleteCurrentUser(db: Db, p: Principal) returns (status: nat)
    requires db.Valid()
    modifies db`users
    ensures db.Valid()
    ensures !Authenticated(p) ==> status == 401 && db.users == old(db.users)
    ensures Authenticated(p) && p.userId.value !in old(db.users) ==> status == 404 && db.users == old(db.users)
    ensures Authenticated(p) && p.userId.value in old(db.users) ==>
      status == 204 && db.users == old(db.users) - {p.userId.value}
  {
    var userId := p.userId;
    if !NonEmpty(userId) {
      return 401;
    }
    if userId.value !in db.users {
      return 404;
    }
    db.users := db.users - {userId.value};
    return 204;
  }

  /** A token issued at registration or login carries no role, so
      `verifyToken` lets its holder in as that user with the role "user",
      never as an admin. */
  lemma IssuedTokenGrantsUserRole(c: TokenClaims)
    requires c.userId != ""
    ensures PrincipalFromPayload(ClaimsPayload(c)) == Some(Principal(Some(c.userId), Some(JString("user"))))
    ensures Authenticated(PrincipalFromPayload(ClaimsPayload(c)).value)
    ensures !IsAdmin(PrincipalFromPayload(ClaimsPayload(c)).value)
  {
    var fields := ClaimsPayload(c).fields;
    assert "role" !in fields;
  }

  /** Registering then logging in with the same password (when the digest
      matches it) yields a token for the same claims. */
  method RegisterThenLoginScenario(hash: string -> PasswordHash, matches: (string, PasswordHash) -> bool)
    requires matches("secret1", hash("secret1"))
  {
    var db := new Db();
    var status, user, claims := RegisterUser(db, RegisterInput("Ana", "ana@x.io", "secret1", Some("")), "u1", 0, hash);
    assert status == 201 && user.value.currentLanguageId.None?;
    var again, _, _ := RegisterUser(db, RegisterInput("Ana", "ana@x.io", "other1", None), "u2", 1, hash);
    assert again == 409;
    var loginStatus, loginUser, loginClaims := LoginUser(db, "ana@x.io", "secret1", matches);
    assert loginStatus == 200 && loginClaims == claims && loginUser == user;
  }
}
