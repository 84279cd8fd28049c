/** `POST /api/verify`: consumes a verification token. A token is accepted
    only while it has not expired, and accepting it clears it, so it works
    once. */
module Verify {
  import opened Common
  import opened Http
  import opened Seqs
  import opened Schema
  import opened Store

  datatype Request = Request(token: Option<string>)

  const RequiredMsg: string := "Verification token is required"
  const InvalidMsg: string := "Invalid or expired verification token"
  const SuccessMsg: string := "Email verified successfully"

  /** `verificationToken = token AND now < verificationTokenExpires`; a NULL
      expiry compares as unknown and never passes. */
  predicate Accepts(u: User, token: string, now: Time) {
    HoldsToken(u, VerificationColumns, token, now)
  }

  /** The UPDATE: verified, token and expiry cleared, every other column kept. */
  function MarkVerified(u: User): (v: User)
    ensures v.isVerified && v.verificationToken.None? && v.verificationTokenExpires.None?
    ensures v.(isVerified := u.isVerified, verificationToken := u.verificationToken,
               verificationTokenExpires := u.verificationTokenExpires) == u
  {
    u.(isVerified := true, verificationToken := None, verificationTokenExpires := None)
  }

  function Handle(t: Tables, m: Method, req: Request, now: Time): (s: Step<string>)
    ensures m != POST ==> s == Step(t, Failure(StatusMethodNotAllowed, MethodNotAllowedMsg))
    ensures m == POST && !Truthy(req.token) ==> s == Step(t, Failure(StatusBadRequest, RequiredMsg))
    ensures s.reply.Success? <==>
              m == POST && Truthy(req.token) &&
              exists i | 0 <= i < |t.users| :: Accepts(t.users[i], req.token.value, now)
    ensures m == POST && Truthy(req.token) && s.reply.Failure? ==> s == Step(t, Failure(StatusBadRequest, InvalidMsg))
    ensures s.reply.Success? ==>
              && s.reply == Success(StatusOk, SuccessMsg)
              && var k := FindByToken(t.users, VerificationColumns, req.token.value, now).value;
              && s.tables == t.(users := t.users[k := MarkVerified(t.users[k])])
  {
    if m != POST then Step(t, Failure(StatusMethodNotAllowed, MethodNotAllowedMsg))
    else if !Truthy(req.token) then Step(t, Failure(StatusBadRequest, RequiredMsg))
    else
      match FindByToken(t.users, VerificationColumns, req.token.value, now)
      case None => Step(t, Failure(StatusBadRequest, InvalidMsg))
      case Some(k) => Step(t.(users := t.users[k := MarkVerified(t.users[k])]), Success(StatusOk, SuccessMsg))
  }

  /** Verification keeps every constraint of the database. */
  lemma HandleKeepsValid(t: Tables, m: Method, req: Request, now: Time)
    requires TablesValid(t)
    ensures TablesValid(Handle(t, m, req, now).tables)
  {
    var s := Handle(t, m, req, now);
    if s.reply.Success? {
      var k := FindByToken(t.users, VerificationColumns, req.token.value, now).value;
      SameUserKeysValid(t, t.users[k := MarkVerified(t.users[k])]);
    }
  }

  /** At most one user row holds `token`. */
  predicate HeldByOne(users: seq<User>, token: string) {
    forall i, j | 0 <= i < |users| && 0 <= j < |users| ::
      users[i].verificationToken == Some(token) && users[j].verificationToken == Some(token) ==> i == j
  }

  /** A consumed token cannot be used again, at any later time. */
  lemma ReplayRejected(t: Tables, req: Request, now: Time, later: Time)
    requires Truthy(req.token) && HeldByOne(t.users, req.token.value)
    requires Handle(t, POST, req, now).reply.Success?
    ensures var t2 := Handle(t, POST, req, now).tables;
            Handle(t2, POST, req, later) == Step(t2, Failure(StatusBadRequest, InvalidMsg))
  {
    var token := req.token.value;
    var k := FindByToken(t.users, VerificationColumns, token, now).value;
    var t2 := Handle(t, POST, req, now).tables;
    forall i | 0 <= i < |t2.users| ensures !Accepts(t2.users[i], token, later) {
      if i != k {
        assert t2.users[i] == t.users[i];
      }
    }
  }

  /** A token whose every holder has expired is refused, and nothing changes. */
  lemma ExpiredRejected(t: Tables, req: Request, now: Time)
    requires Truthy(req.token)
    requires forall i | 0 <= i < |t.users| && t.users[i].verificationToken == Some(req.token.value) ::
               t.users[i].verificationTokenExpires.Some? && t.users[i].verificationTokenExpires.value <= now
    ensures Handle(t, POST, req, now) == Step(t, Failure(StatusBadRequest, InvalidMsg))
  {
  }

  /** The handler run against the database. */
  method HandleOn(db: Db, m: Method, req: Request, now: Time) returns (reply: Reply<string>)
    requires db.Valid()
    modifies db
    ensures db.Valid()
    ensures var s := Handle(old(db.State()), m, req, now);
            db.State() == s.tables && reply == s.reply
    ensures db.nextId == old(db.nextId)
  {
    if m != POST {
      return Failure(StatusMethodNotAllowed, MethodNotAllowedMsg);
    }
    if !Truthy(req.token) {
      return Failure(StatusBadRequest, RequiredMsg);
    }
    var found := FindByToken(db.users, VerificationColumns, req.token.value, now);
    if found.None? {
      return Failure(StatusBadRequest, InvalidMsg);
    }
    var k := found.value;
    var updated := db.users[k := MarkVerified(db.users[k])];
    SameUserKeysValid(db.State(), updated);
    db.users := updated;
    return Success(StatusOk, SuccessMsg);
  }
}
