/** `POST /api/reset-password`: consumes a reset token that has not expired
    and stores the hash of the new password. */
module ResetPassword {
  import opened Common
  import opened Http
  import opened Seqs
  import opened Schema
  import opened ApiUtils
  import opened Store

  datatype Request = Request(token: Option<string>, password: Option<string>)

  const RequiredMsg: string := "Token and new password are required"
  const InvalidMsg: string := "Invalid or expired reset token"
  const SuccessMsg: string := "Password reset successfully"

  /** `resetToken = token AND now < resetTokenExpires`. */
  predicate Accepts(u: User, token: string, now: Time) {
    HoldsToken(u, ResetColumns, token, now)
  }

  /** The UPDATE: the new hash, reset token and expiry cleared, every other
      column (the verification columns among them) kept. */
  function ApplyReset(u: User, hash: string): (v: User)
    ensures v.passwordHash == hash && v.resetToken.None? && v.resetTokenExpires.None?
    ensures v.(passwordHash := u.passwordHash, resetToken := u.resetToken,
               resetTokenExpires := u.resetTokenExpires) == u
  {
    u.(passwordHash := hash, resetToken := None, resetTokenExpires := None)
  }

  predicate Complete(req: Request) {
    Truthy(req.token) && Truthy(req.password)
  }

  function Handle(t: Tables, m: Method, req: Request, now: Time, sha: Sha256): (s: Step<string>)
    ensures m != POST ==> s == Step(t, Failure(StatusMethodNotAllowed, MethodNotAllowedMsg))
    ensures m == POST && !Complete(req) ==> s == Step(t, Failure(StatusBadRequest, RequiredMsg))
    ensures s.reply.Success? <==>
              m == POST && Complete(req) &&
              exists i | 0 <= i < |t.users| :: Accepts(t.users[i], req.token.value, now)
    ensures m == POST && Complete(req) && s.reply.Failure? ==> s == Step(t, Failure(StatusBadRequest, InvalidMsg))
    ensures s.reply.Success? ==>
              && s.reply == Success(StatusOk, SuccessMsg)
              && var k := FindByToken(t.users, ResetColumns, req.token.value, now).value;
              && s.tables == t.(users := t.users[k := ApplyReset(t.users[k], HashPassword(sha, req.password.value))])
  {
    if m != POST then Step(t, Failure(StatusMethodNotAllowed, MethodNotAllowedMsg))
    else if !Complete(req) then Step(t, Failure(StatusBadRequest, RequiredMsg))
    else
      match FindByToken(t.users, ResetColumns, req.token.value, now)
      case None => Step(t, Failure(StatusBadRequest, InvalidMsg))
      case Some(k) =>
        var u := ApplyReset(t.users[k], HashPassword(sha, req.password.value));
        Step(t.(users := t.users[k := u]), Success(StatusOk, SuccessMsg))
  }

  lemma HandleKeepsValid(t: Tables, m: Method, req: Request, now: Time, sha: Sha256)
    requires TablesValid(t)
    ensures TablesValid(Handle(t, m, req, now, sha).tables)
  {
    var s := Handle(t, m, req, now, sha);
    if s.reply.Success? {
      var k := FindByToken(t.users, ResetColumns, req.token.value, now).value;
      SameUserKeysValid(t, t.users[k := ApplyReset(t.users[k], HashPassword(sha, req.password.value))]);
    }
  }

  /** After a reset the new password verifies against the stored hash, and
      the account's verification state is what it was. */
  lemma NewPasswordVerifies(t: Tables, req: Request, now: Time, sha: Sha256)
    requires Handle(t, POST, req, now, sha).reply.Success?
    ensures var k := FindByToken(t.users, ResetColumns, req.token.value, now).value;
            var u := Handle(t, POST, req, now, sha).tables.users[k];
            && VerifyPassword(sha, req.password.value, u.passwordHash)
            && u.isVerified == t.users[k].isVerified
            && u.verificationToken == t.users[k].verificationToken
  {
    VerifyHashed(sha, req.password.value, req.password.value);
  }

  /** At most one user row holds the reset token `token`. */
  predicate HeldByOne(users: seq<User>, token: string) {
    forall i, j | 0 <= i < |users| && 0 <= j < |users| ::
      users[i].resetToken == Some(token) && users[j].resetToken == Some(token) ==> i == j
  }

  /** A consumed reset token cannot be used again. */
  lemma ReplayRejected(t: Tables, req: Request, now: Time, later: Time, sha: Sha256, req2: Request)
    requires Complete(req) && HeldByOne(t.users, req.token.value)
    requires Handle(t, POST, req, now, sha).reply.Success?
    requires Complete(req2) && req2.token == req.token
    ensures var t2 := Handle(t, POST, req, now, sha).tables;
            Handle(t2, POST, req2, later, sha) == Step(t2, Failure(StatusBadRequest, InvalidMsg))
  {
    var token := req.token.value;
    var k := FindByToken(t.users, ResetColumns, token, now).value;
    var t2 := Handle(t, POST, req, now, sha).tables;
    forall i | 0 <= i < |t2.users| ensures !Accepts(t2.users[i], token, later) {
      if i != k {
        assert t2.users[i] == t.users[i];
      }
    }
  }

  method HandleOn(db: Db, m: Method, req: Request, now: Time, sha: Sha256) returns (reply: Reply<string>)
    requires db.Valid()
    modifies db
    ensures db.Valid()
    ensures var s := Handle(old(db.State()), m, req, now, sha);
            db.State() == s.tables && reply == s.reply
    ensures db.nextId == old(db.nextId)
  {
    if m != POST {
      return Failure(StatusMethodNotAllowed, MethodNotAllowedMsg);
    }
    if !Complete(req) {
      return Failure(StatusBadRequest, RequiredMsg);
    }
    var found := FindByToken(db.users, ResetColumns, req.token.value, now);
    if found.None? {
      return Failure(StatusBadRequest, InvalidMsg);
    }
    var k := found.value;
    var hash := HashPassword(sha, req.password.value);
    var updated := db.users[k := ApplyReset(db.users[k], hash)];
    SameUserKeysValid(db.State(), updated);
    db.users := updated;
    return Success(StatusOk, SuccessMsg);
  }
}
