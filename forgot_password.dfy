/** `POST /api/forgot-password`: installs a one-hour reset token on the
    account with the given email and mails it. The answer is the same whether
    or not the email belongs to an account. */
module ForgotPassword {
  import opened Common
  import opened Text
  import opened Http
  import opened Schema
  import opened ApiUtils
  import opened Store

  datatype Request = Request(email: Option<string>)

  const RequiredMsg: string := "Email is required"
  const AnswerMsg: string := "If your email is registered, you will receive a password reset link"
  const FailedMsg: string := "Failed to process request"

  /** How long a reset token stays valid. */
  const ResetLifetime: int := HourMs

  /** The UPDATE: a new reset token and expiry, every other column kept. Any
      earlier reset token is overwritten. */
  function InstallResetToken(u: User, token: string, expires: Time): (v: User)
    ensures v.resetToken == Some(token) && v.resetTokenExpires == Some(expires)
    ensures v.(resetToken := u.resetToken, resetTokenExpires := u.resetTokenExpires) == u
  {
    u.(resetToken := Some(token), resetTokenExpires := Some(expires))
  }

  /** The handler. `random` is what `generateToken` draws and `mailOk` whether
      the mail service accepted the reset mail. */
  function Handle(t: Tables, m: Method, req: Request, now: Time, random: TokenBytes, mailOk: bool): (s: Step<string>)
    ensures m != POST ==> s == Step(t, Failure(StatusMethodNotAllowed, MethodNotAllowedMsg))
    ensures m == POST && !Truthy(req.email) ==> s == Step(t, Failure(StatusBadRequest, RequiredMsg))
    ensures m == POST && Truthy(req.email) && FindUserByEmail(t.users, Lower(req.email.value)).None?
            ==> s == Step(t, Success(StatusOk, AnswerMsg))
    ensures m == POST && Truthy(req.email) && FindUserByEmail(t.users, Lower(req.email.value)).Some? ==>
              && var k := FindUserByEmail(t.users, Lower(req.email.value)).value;
              && s.tables == t.(users := t.users[k := InstallResetToken(t.users[k], GenerateToken(random), now + ResetLifetime)])
              && s.reply == if mailOk then Success(StatusOk, AnswerMsg) else Failure(StatusServerError, FailedMsg)
    ensures s.reply.Success? ==> s.reply == Success(StatusOk, AnswerMsg)
  {
    if m != POST then Step(t, Failure(StatusMethodNotAllowed, MethodNotAllowedMsg))
    else if !Truthy(req.email) then Step(t, Failure(StatusBadRequest, RequiredMsg))
    else
      match FindUserByEmail(t.users, Lower(req.email.value))
      case None => Step(t, Success(StatusOk, AnswerMsg))
      case Some(k) =>
        var u := InstallResetToken(t.users[k], GenerateToken(random), now + ResetLifetime);
        Step(t.(users := t.users[k := u]),
             if mailOk then Success(StatusOk, AnswerMsg) else Failure(StatusServerError, FailedMsg))
  }

  /** A caller cannot tell a registered email from an unregistered one by the
      answer: whenever the mail goes out, both answers are the same. */
  lemma AnswerIsUniform(t: Tables, e1: string, e2: string, now: Time, random: TokenBytes)
    requires e1 != "" && e2 != ""
    ensures Handle(t, POST, Request(Some(e1)), now, random, true).reply
         == Handle(t, POST, Request(Some(e2)), now, random, true).reply
  {
  }

  /** The request changes at most the reset columns of one user row. */
  lemma HandleKeepsValid(t: Tables, m: Method, req: Request, now: Time, random: TokenBytes, mailOk: bool)
    requires TablesValid(t)
    ensures TablesValid(Handle(t, m, req, now, random, mailOk).tables)
  {
    if m == POST && Truthy(req.email) {
      match FindUserByEmail(t.users, Lower(req.email.value))
      case None =>
      case Some(k) =>
        var u := InstallResetToken(t.users[k], GenerateToken(random), now + ResetLifetime);
        SameUserKeysValid(t, t.users[k := u]);
    }
  }

  /** The handler run against the database. */
  method HandleOn(db: Db, m: Method, req: Request, now: Time, random: TokenBytes, mailOk: bool)
    returns (reply: Reply<string>)
    requires db.Valid()
    modifies db
    ensures db.Valid()
    ensures var s := Handle(old(db.State()), m, req, now, random, mailOk);
            db.State() == s.tables && reply == s.reply
    ensures db.nextId == old(db.nextId)
  {
    if m != POST {
      return Failure(StatusMethodNotAllowed, MethodNotAllowedMsg);
    }
    if !Truthy(req.email) {
      return Failure(StatusBadRequest, RequiredMsg);
    }
    var found := FindUserByEmail(db.users, Lower(req.email.value));
    if found.None? {
      return Success(StatusOk, AnswerMsg);
    }
    var k := found.value;
    var token := GenerateToken(random);
    var updated := db.users[k := InstallResetToken(db.users[k], token, now + ResetLifetime)];
    SameUserKeysValid(db.State(), updated);
    db.users := updated;
    if !mailOk {
      return Failure(StatusServerError, FailedMsg);
    }
    return Success(StatusOk, AnswerMsg);
  }
}
