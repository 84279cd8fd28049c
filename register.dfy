/** `POST /api/register`: creates an unverified account with a verification
    token that lives for 24 hours, and mails the token to the new member. */
module Register {
  import opened Common
  import opened Text
  import opened Http
  import opened Schema
  import opened ApiUtils
  import opened Store

  datatype Request = Request(
    name: Option<string>,
    phone: Option<string>,
    email: Option<string>,
    password: Option<string>,
    role: Option<string>)

  const RequiredMsg: string := "All fields are required"
  const TakenMsg: string := "Email already registered"
  const FailedMsg: string := "Registration failed"
  const SuccessMsg: string := "User registered successfully. Please verify your email."

  /** How long a verification token stays valid. */
  const TokenLifetime: int := 24 * HourMs

  predicate Complete(req: Request) {
    Truthy(req.name) && Truthy(req.phone) && Truthy(req.email) && Truthy(req.password) && Truthy(req.role)
  }

  /** `t2` is `t` with exactly one user appended: the account the request
      describes, under the email lower-cased, with the password hashed, not
      verified, not an admin, holding the token `token` until `now` + 24h. */
  predicate Registered(t: Tables, t2: Tables, req: Request, id: Id, now: Time, token: string, sha: Sha256)
    requires Complete(req)
  {
    && |t2.users| == |t.users| + 1
    && t2 == t.(users := t2.users)
    && t2.users[..|t.users|] == t.users
    && var u := t2.users[|t.users|];
    && u.id == id
    && u.name == req.name.value && u.phone == req.phone.value && u.role == req.role.value
    && u.email == Lower(req.email.value)
    && u.passwordHash == HashPassword(sha, req.password.value)
    && !u.isVerified && !u.isAdmin
    && u.verificationToken == Some(token)
    && u.verificationTokenExpires == Some(now + TokenLifetime)
    && u.resetToken.None? && u.resetTokenExpires.None? && u.profilePicture.None?
  }

  /** The handler. `newId` is the id the database hands the new row,
      `random` the bytes `generateToken` draws, `mailOk` whether the mail
      service accepted the verification mail. */
  function Handle(t: Tables, m: Method, req: Request, newId: Id, now: Time,
                  random: TokenBytes, sha: Sha256, mailOk: bool): (s: Step<string>)
    ensures m != POST ==> s == Step(t, Failure(StatusMethodNotAllowed, MethodNotAllowedMsg))
    ensures m == POST && !Complete(req) ==> s == Step(t, Failure(StatusBadRequest, RequiredMsg))
    ensures m == POST && Complete(req) && FindUserByEmail(t.users, Lower(req.email.value)).Some?
            ==> s == Step(t, Failure(StatusBadRequest, TakenMsg))
    ensures s.tables != t <==>
              m == POST && Complete(req) && FindUserByEmail(t.users, Lower(req.email.value)).None?
    ensures s.tables != t ==> Registered(t, s.tables, req, newId, now, GenerateToken(random), sha)
    ensures s.tables != t ==> s.reply == if mailOk then Success(StatusCreated, SuccessMsg) else Failure(StatusServerError, FailedMsg)
    ensures s.reply.Success? ==> s.reply == Success(StatusCreated, SuccessMsg) && s.tables != t
  {
    if m != POST then Step(t, Failure(StatusMethodNotAllowed, MethodNotAllowedMsg))
    else if !Complete(req) then Step(t, Failure(StatusBadRequest, RequiredMsg))
    else
      var email := Lower(req.email.value);
      if FindUserByEmail(t.users, email).Some? then Step(t, Failure(StatusBadRequest, TakenMsg))
      else
        var u := NewUser(newId, req.name.value, req.phone.value, email,
                         HashPassword(sha, req.password.value), req.role.value, now,
                         Some(GenerateToken(random)), Some(now + TokenLifetime));
        var t2 := t.(users := t.users + [u]);
        assert t2.users[..|t.users|] == t.users;
        Step(t2, if mailOk then Success(StatusCreated, SuccessMsg) else Failure(StatusServerError, FailedMsg))
  }

  /** Registration keeps every constraint of the database, in particular the
      unique lower-case emails. */
  lemma HandleKeepsValid(t: Tables, m: Method, req: Request, newId: Id, now: Time,
                         random: TokenBytes, sha: Sha256, mailOk: bool)
    requires TablesValid(t) && newId !in UserIds(t.users)
    ensures TablesValid(Handle(t, m, req, newId, now, random, sha, mailOk).tables)
  {
    var s := Handle(t, m, req, newId, now, random, sha, mailOk);
    if s.tables != t {
      var u := s.tables.users[|t.users|];
      LowerIsLowerCase(req.email.value);
      assert s.tables == t.(users := t.users + [u]);
      InsertUserValid(t, u);
    }
  }

  /** The stored hash is never the plaintext password, unless the plaintext
      itself is the hex of its own digest. */
  lemma StoresHashNotPassword(t: Tables, req: Request, newId: Id, now: Time,
                              random: TokenBytes, sha: Sha256, mailOk: bool)
    requires Complete(req)
    requires HexDecode(req.password.value) != Some(sha(req.password.value))
    ensures var s := Handle(t, POST, req, newId, now, random, sha, mailOk);
            s.tables != t ==> s.tables.users[|t.users|].passwordHash != req.password.value
  {
  }

  /** The handler run against the database. */
  method HandleOn(db: Db, m: Method, req: Request, now: Time,
                  random: TokenBytes, sha: Sha256, mailOk: bool) returns (reply: Reply<string>)
    requires db.Valid()
    modifies db
    ensures db.Valid()
    ensures var s := Handle(old(db.State()), m, req, old(db.nextId), now, random, sha, mailOk);
            db.State() == s.tables && reply == s.reply
  {
    if m != POST {
      return Failure(StatusMethodNotAllowed, MethodNotAllowedMsg);
    }
    if !Complete(req) {
      return Failure(StatusBadRequest, RequiredMsg);
    }
    var email := Lower(req.email.value);
    var existing := FindUserByEmail(db.users, email);
    if existing.Some? {
      return Failure(StatusBadRequest, TakenMsg);
    }
    var token := GenerateToken(random);
    var u := NewUser(db.nextId, req.name.value, req.phone.value, email,
                     HashPassword(sha, req.password.value), req.role.value, now,
                     Some(token), Some(now + TokenLifetime));
    FreshId(db.State(), db.nextId);
    LowerIsLowerCase(req.email.value);
    InsertUserValid(db.State(), u);
    db.users := db.users + [u];
    db.nextId := db.nextId + 1;
    if !mailOk {
      return Failure(StatusServerError, FailedMsg);
    }
    return Success(StatusCreated, SuccessMsg);
  }
}
