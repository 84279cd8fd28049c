/** The account lifecycle across the five account handlers: register, verify,
    log in, ask for a reset, reset. Each lemma runs the handlers one after
    another on the same database. */
module Accounts {
  import opened Common
  import opened Text
  import opened Http
  import opened Schema
  import opened ApiUtils
  import opened Store
  import Register
  import Verify
  import Login
  import ForgotPassword
  import ResetPassword

  /** The login request a member sends with the credentials they registered. */
  function LoginWith(reg: Register.Request): Login.Request {
    Login.Request(reg.email, reg.password)
  }

  /** No user row holds `token` as its verification token. */
  predicate VerificationTokenUnused(users: seq<User>, token: string) {
    forall i | 0 <= i < |users| :: users[i].verificationToken != Some(token)
  }

  /** No user row holds `token` as its reset token. */
  predicate ResetTokenUnused(users: seq<User>, token: string) {
    forall i | 0 <= i < |users| :: users[i].resetToken != Some(token)
  }

  /** A member who has just registered cannot log in, whatever the mail
      service did: the account is not verified yet. */
  lemma NoLoginBeforeVerification(t: Tables, reg: Register.Request, id: Id, now: Time, random: TokenBytes,
                                  sha: Sha256, mailOk: bool, signIn: Option<Login.Session>)
    requires TablesValid(t) && id !in UserIds(t.users)
    requires Register.Handle(t, POST, reg, id, now, random, sha, mailOk).tables != t
    ensures var t2 := Register.Handle(t, POST, reg, id, now, random, sha, mailOk).tables;
            Login.Handle(t2, POST, LoginWith(reg), sha, signIn) == Failure(StatusUnauthorized, Login.UnverifiedMsg)
  {
    var t2 := Register.Handle(t, POST, reg, id, now, random, sha, mailOk).tables;
    Register.HandleKeepsValid(t, POST, reg, id, now, random, sha, mailOk);
    Login.UnverifiedBeforePassword(t2, LoginWith(reg), sha, signIn, |t.users|);
  }

  /** Registering, then following the mailed link within 24 hours, verifies
      the new account; then the registered credentials log in. */
  lemma VerifyThenLogin(t: Tables, reg: Register.Request, id: Id, now: Time, random: TokenBytes,
                        sha: Sha256, mailOk: bool, later: Time, session: Login.Session)
    requires TablesValid(t) && id !in UserIds(t.users)
    requires Register.Handle(t, POST, reg, id, now, random, sha, mailOk).tables != t
    requires VerificationTokenUnused(t.users, GenerateToken(random))
    requires later < now + Register.TokenLifetime
    ensures var t2 := Register.Handle(t, POST, reg, id, now, random, sha, mailOk).tables;
            var s := Verify.Handle(t2, POST, Verify.Request(Some(GenerateToken(random))), later);
            && s.reply == Success(StatusOk, Verify.SuccessMsg)
            && Login.Handle(s.tables, POST, LoginWith(reg), sha, Some(session)).Success?
  {
    var token := GenerateToken(random);
    var t2 := Register.Handle(t, POST, reg, id, now, random, sha, mailOk).tables;
    var k := |t.users|;
    assert Verify.Accepts(t2.users[k], token, later);
    assert FindByToken(t2.users, VerificationColumns, token, later) == Some(k) by {
      forall i | 0 <= i < k ensures !Verify.Accepts(t2.users[i], token, later) {
        assert t2.users[i] == t.users[i];
      }
    }
    var s := Verify.Handle(t2, POST, Verify.Request(Some(token)), later);
    Register.HandleKeepsValid(t, POST, reg, id, now, random, sha, mailOk);
    Verify.HandleKeepsValid(t2, POST, Verify.Request(Some(token)), later);
    VerifyHashed(sha, reg.password.value, reg.password.value);
    Login.SucceedsIffPassword(s.tables, LoginWith(reg), sha, session, k);
  }

  /** A reset token that is asked for and used within the hour sets the new
      password, and the new password then logs in a verified account. */
  lemma ForgotThenReset(t: Tables, email: string, now: Time, random: TokenBytes, mailOk: bool,
                        later: Time, password: string, sha: Sha256, session: Login.Session)
    requires TablesValid(t) && email != "" && password != ""
    requires FindUserByEmail(t.users, Lower(email)).Some?
    requires ResetTokenUnused(t.users, GenerateToken(random))
    requires later < now + ForgotPassword.ResetLifetime
    ensures var t2 := ForgotPassword.Handle(t, POST, ForgotPassword.Request(Some(email)), now, random, mailOk).tables;
            var req := ResetPassword.Request(Some(GenerateToken(random)), Some(password));
            var t3 := ResetPassword.Handle(t2, POST, req, later, sha);
            && t3.reply == Success(StatusOk, ResetPassword.SuccessMsg)
            && var k := FindUserByEmail(t.users, Lower(email)).value;
            && (t.users[k].isVerified ==>
                  Login.Handle(t3.tables, POST, Login.Request(Some(email), Some(password)), sha, Some(session)).Success?)
  {
    var token := GenerateToken(random);
    var k := FindUserByEmail(t.users, Lower(email)).value;
    var t2 := ForgotPassword.Handle(t, POST, ForgotPassword.Request(Some(email)), now, random, mailOk).tables;
    assert t2.users[k].resetToken == Some(token);
    assert ResetPassword.Accepts(t2.users[k], token, later);
    assert FindByToken(t2.users, ResetColumns, token, later) == Some(k) by {
      forall i | 0 <= i < k ensures !ResetPassword.Accepts(t2.users[i], token, later) {
        assert t2.users[i] == t.users[i];
      }
    }
    var req := ResetPassword.Request(Some(token), Some(password));
    var t3 := ResetPassword.Handle(t2, POST, req, later, sha);
    ForgotPassword.HandleKeepsValid(t, POST, ForgotPassword.Request(Some(email)), now, random, mailOk);
    ResetPassword.HandleKeepsValid(t2, POST, req, later, sha);
    VerifyHashed(sha, password, password);
    if t.users[k].isVerified {
      Login.SucceedsIffPassword(t3.tables, Login.Request(Some(email), Some(password)), sha, session, k);
    }
  }

  /** Asking for a second reset link kills the first: its token no longer
      resets anything. */
  lemma SecondRequestReplacesFirst(t: Tables, email: string, now: Time, random1: TokenBytes, random2: TokenBytes,
                                   mailOk: bool, later: Time, password: string, sha: Sha256)
    requires TablesValid(t) && email != "" && password != ""
    requires FindUserByEmail(t.users, Lower(email)).Some?
    requires ResetTokenUnused(t.users, GenerateToken(random1))
    requires random1 != random2
    ensures var req := ForgotPassword.Request(Some(email));
            var t2 := ForgotPassword.Handle(t, POST, req, now, random1, mailOk).tables;
            var t3 := ForgotPassword.Handle(t2, POST, req, now, random2, mailOk).tables;
            ResetPassword.Handle(t3, POST, ResetPassword.Request(Some(GenerateToken(random1)), Some(password)), later, sha).reply
              == Failure(StatusBadRequest, ResetPassword.InvalidMsg)
  {
    var token := GenerateToken(random1);
    var req := ForgotPassword.Request(Some(email));
    var k := FindUserByEmail(t.users, Lower(email)).value;
    var t2 := ForgotPassword.Handle(t, POST, req, now, random1, mailOk).tables;
    assert FindUserByEmail(t2.users, Lower(email)) == Some(k) by {
      forall i | 0 <= i < |t2.users| ensures t2.users[i].email == t.users[i].email {
      }
    }
    var t3 := ForgotPassword.Handle(t2, POST, req, now, random2, mailOk).tables;
    assert GenerateToken(random2) != token by {
      if GenerateToken(random2) == token {
        HexInjective(random1, random2);
      }
    }
    forall i | 0 <= i < |t3.users| ensures !ResetPassword.Accepts(t3.users[i], token, later) {
      if i != k {
        assert t3.users[i] == t.users[i];
      }
    }
    assert FindByToken(t3.users, ResetColumns, token, later).None?;
  }
}
