/** `POST /api/login`: checks the credentials against the `users` table in a
    fixed order (required fields, known email, verified account, password)
    and only reads the table. The provider's session call is an input. */
module Login {
  import opened Common
  import opened Text
  import opened Http
  import opened Schema
  import opened ApiUtils
  import opened Store

  datatype Request = Request(email: Option<string>, password: Option<string>)

  /** The session the identity provider opens on a correct password. */
  datatype Session = Session(accessToken: string)

  /** The user record the handler returns: the password hash and the token
      columns are not part of it. */
  datatype UserInfo = UserInfo(
    id: Id,
    name: string,
    email: string,
    role: string,
    isAdmin: bool,
    profilePicture: Option<string>)

  datatype Body = Body(message: string, user: UserInfo, session: Session)

  const RequiredMsg: string := "Email and password are required"
  const BadCredentialsMsg: string := "Invalid email or password"
  const UnverifiedMsg: string := "Please verify your email before logging in"
  const FailedMsg: string := "Login failed"
  const SuccessMsg: string := "Login successful"

  function Info(u: User): UserInfo {
    UserInfo(u.id, u.name, u.email, u.role, u.isAdmin, u.profilePicture)
  }

  predicate Complete(req: Request) {
    Truthy(req.email) && Truthy(req.password)
  }

  /** The handler. `signIn` is the provider's answer to `signInWithPassword`
      (`None` when it reports an error). */
  function Handle(t: Tables, m: Method, req: Request, sha: Sha256, signIn: Option<Session>): (r: Reply<Body>)
    ensures m != POST ==> r == Failure(StatusMethodNotAllowed, MethodNotAllowedMsg)
    ensures m == POST && !Complete(req) ==> r == Failure(StatusBadRequest, RequiredMsg)
    ensures r.Failure? && r.status == StatusUnauthorized ==> r.error == BadCredentialsMsg || r.error == UnverifiedMsg
    ensures r.Success? ==>
              && m == POST && Complete(req)
              && r.status == StatusOk && r.value.message == SuccessMsg && signIn == Some(r.value.session)
              && var k := FindUserByEmail(t.users, Lower(req.email.value));
              && k.Some?
              && t.users[k.value].isVerified
              && VerifyPassword(sha, req.password.value, t.users[k.value].passwordHash)
              && r.value.user == Info(t.users[k.value])
  {
    if m != POST then Failure(StatusMethodNotAllowed, MethodNotAllowedMsg)
    else if !Complete(req) then Failure(StatusBadRequest, RequiredMsg)
    else
      match FindUserByEmail(t.users, Lower(req.email.value))
      case None => Failure(StatusUnauthorized, BadCredentialsMsg)
      case Some(k) =>
        var u := t.users[k];
        if !u.isVerified then Failure(StatusUnauthorized, UnverifiedMsg)
        else if !VerifyPassword(sha, req.password.value, u.passwordHash) then Failure(StatusUnauthorized, BadCredentialsMsg)
        else if signIn.None? then Failure(StatusServerError, FailedMsg)
        else Success(StatusOk, Body(SuccessMsg, Info(u), signIn.value))
  }

  /** An unknown email and a wrong password get the same answer. */
  lemma UnknownEmailLikeWrongPassword(t: Tables, req: Request, sha: Sha256, signIn: Option<Session>)
    requires Complete(req)
    requires forall i | 0 <= i < |t.users| :: t.users[i].email != Lower(req.email.value)
    ensures Handle(t, POST, req, sha, signIn) == Failure(StatusUnauthorized, BadCredentialsMsg)
  {
  }

  /** The account of `req.email` in a valid table (unique emails). */
  predicate AccountAt(t: Tables, req: Request, k: nat)
    requires Complete(req)
  {
    k < |t.users| && t.users[k].email == Lower(req.email.value)
  }

  /** An unverified account is refused before its password is looked at:
      the answer is the same for every password. */
  lemma UnverifiedBeforePassword(t: Tables, req: Request, sha: Sha256, signIn: Option<Session>, k: nat)
    requires UsersValid(t.users) && Complete(req) && AccountAt(t, req, k)
    requires !t.users[k].isVerified
    ensures Handle(t, POST, req, sha, signIn) == Failure(StatusUnauthorized, UnverifiedMsg)
  {
    FoundUserIsUnique(t.users, Lower(req.email.value), k);
  }

  /** For a verified account the answer turns only on the password. */
  lemma SucceedsIffPassword(t: Tables, req: Request, sha: Sha256, session: Session, k: nat)
    requires UsersValid(t.users) && Complete(req) && AccountAt(t, req, k)
    requires t.users[k].isVerified
    ensures var r := Handle(t, POST, req, sha, Some(session));
            && (r.Success? <==> VerifyPassword(sha, req.password.value, t.users[k].passwordHash))
            && (r.Success? ==> r.value == Body(SuccessMsg, Info(t.users[k]), session))
            && (r.Failure? ==> r == Failure(StatusUnauthorized, BadCredentialsMsg))
  {
    FoundUserIsUnique(t.users, Lower(req.email.value), k);
  }

  /** The email is matched case-insensitively: any spelling that lower-cases
      to the same address reaches the same account. */
  lemma CaseInsensitive(t: Tables, req: Request, req2: Request, sha: Sha256, signIn: Option<Session>)
    requires Complete(req) && Complete(req2)
    requires Lower(req.email.value) == Lower(req2.email.value) && req.password == req2.password
    ensures Handle(t, POST, req, sha, signIn) == Handle(t, POST, req2, sha, signIn)
  {
  }
}
