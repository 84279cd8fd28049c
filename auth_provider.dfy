/** The browser session: the signed-in user kept in memory and in two
    `localStorage` keys, the calls that sign in and out, and the calls that
    relay a form to the server and turn a refusal into a thrown message.
    What the server answers is an input; `JSON.stringify` and `JSON.parse`
    of a user record are given as functions. */
module AuthProvider {
  import opened Common

  const UserKey: string := "frostWarlordUser"
  const TokenKey: string := "frostWarlordToken"

  const LoginFailedMsg: string := "Login failed"
  const RegistrationFailedMsg: string := "Registration failed"
  const VerificationFailedMsg: string := "Verification failed"
  const RequestFailedMsg: string := "Failed to process request"
  const ResetFailedMsg: string := "Password reset failed"
  const NotAuthenticatedMsg: string := "Not authenticated"
  const UpdateFailedMsg: string := "Failed to update profile"

  /** A JSON value as a user record holds them. */
  datatype JsonValue = JStr(s: string) | JNum(n: int) | JBool(b: bool) | JNull

  /** A user record: a JSON object. */
  type UserRecord = map<string, JsonValue>

  /** `localStorage`: text under text keys. */
  type Storage = map<string, string>

  /** `JSON.stringify` of a user record. */
  type Stringify = UserRecord -> string

  /** `JSON.parse` read as a user record; `None` when it throws. */
  type Parse = string -> Option<UserRecord>

  /** What a call to the server comes to: a 2xx answer with its body, an
      answer that is not 2xx with the `error` field of its body, or a
      failure of `fetch` or of reading the body as JSON, with its message. */
  datatype Answer<T> = Accepted(body: T) | Refused(error: Option<string>) | Thrown(message: string)

  /** The body of a successful sign-in: the user and the access token of
      the session. */
  datatype SignIn = SignIn(user: UserRecord, accessToken: string)

  /** `localStorage.getItem(key)`. */
  function Get(storage: Storage, key: string): (v: Option<string>)
    ensures v.Some? <==> key in storage
    ensures v.Some? ==> v.value == storage[key]
  {
    if key in storage then Some(storage[key]) else None
  }

  /** The message a refused or failed call throws: for a refusal the
      server's `error` when it is not empty, else the call's own fallback; a
      failed call rethrows its own error. */
  function Message<T>(answer: Answer<T>, fallback: string): (m: string)
    requires !answer.Accepted?
    ensures answer.Refused? && fallback != "" ==> m != ""
    ensures answer.Refused? && Truthy(answer.error) ==> m == answer.error.value
    ensures answer.Refused? && !Truthy(answer.error) ==> m == fallback
    ensures answer.Thrown? ==> m == answer.message
  {
    match answer
    case Refused(e) => if Truthy(e) then e.value else fallback
    case Thrown(msg) => msg
  }

  /** What the start-up effect does with the storage it finds: the user
      restored (if any) and the storage left behind. */
  datatype Restored = Restored(user: Option<UserRecord>, storage: Storage)

  /** The start-up effect: a user is restored only when both keys hold
      something and the stored user parses; a stored user that does not
      parse removes both keys. */
  function RestoreFrom(storage: Storage, parse: Parse): (r: Restored)
    ensures r.user.Some? <==> Truthy(Get(storage, UserKey)) && Truthy(Get(storage, TokenKey))
                              && parse(storage[UserKey]).Some?
    ensures r.user.Some? ==> r.user == parse(storage[UserKey]) && r.storage == storage
    ensures r.user.None? && Truthy(Get(storage, UserKey)) && Truthy(Get(storage, TokenKey))
            ==> r.storage == storage - {UserKey, TokenKey}
    ensures !(Truthy(Get(storage, UserKey)) && Truthy(Get(storage, TokenKey))) ==> r.storage == storage
  {
    var stored := Get(storage, UserKey);
    var token := Get(storage, TokenKey);
    if Truthy(stored) && Truthy(token) then
      match parse(stored.value)
      case Some(u) => Restored(Some(u), storage)
      case None => Restored(None, storage - {UserKey, TokenKey})
    else Restored(None, storage)
  }

  /** The storage a successful sign-in leaves. */
  function StoreSignIn(storage: Storage, s: SignIn, stringify: Stringify): (r: Storage)
    ensures Get(r, UserKey) == Some(stringify(s.user)) && Get(r, TokenKey) == Some(s.accessToken)
    ensures forall k | k != UserKey && k != TokenKey :: Get(r, k) == Get(storage, k)
  {
    storage[UserKey := stringify(s.user)][TokenKey := s.accessToken]
  }

  /** `{ ...user, ...data }`: every field of the answer, and the fields of
      the current user the answer does not carry. */
  function Merge(user: Option<UserRecord>, data: UserRecord): (r: UserRecord)
    ensures forall k :: k in r <==> k in data || (user.Some? && k in user.value)
    ensures forall k | k in data :: r[k] == data[k]
    ensures forall k | k !in data && user.Some? && k in user.value :: r[k] == user.value[k]
  {
    (if user.Some? then user.value else map[]) + data
  }

  class Session {
    var storage: Storage
    var user: Option<UserRecord>
    /** The provider's `error` state. */
    var error: Option<string>
    var loading: bool

    /** The provider mounts over whatever the browser has stored. */
    constructor (stored: Storage)
      ensures storage == stored && user.None? && error.None? && loading
    {
      storage := stored;
      user := None;
      error := None;
      loading := true;
    }

    /** `isAuthenticated`. */
    predicate IsAuthenticated()
      reads this
    {
      user.Some?
    }

    /** `getToken`: exactly what is stored under the token key. */
    function Token(): (t: Option<string>)
      reads this
      ensures t == Get(storage, TokenKey)
    {
      Get(storage, TokenKey)
    }

    /** The start-up effect. */
    method Restore(parse: Parse)
      modifies this
      ensures var r := RestoreFrom(old(storage), parse);
              storage == r.storage && user == (if r.user.Some? then r.user else old(user))
      ensures !loading && error == old(error)
    {
      var stored := Get(storage, UserKey);
      var token := Get(storage, TokenKey);
      if Truthy(stored) && Truthy(token) {
        var parsed := parse(stored.value);
        if parsed.Some? {
          user := parsed;
        } else {
          storage := storage - {UserKey, TokenKey};
        }
      }
      loading := false;
    }

    /** `login`: on success the user and the token are stored and the user
        is set; otherwise the message is recorded and thrown and the storage
        is left alone. */
    method Login(answer: Answer<SignIn>, stringify: Stringify) returns (r: Result<UserRecord>)
      modifies this
      ensures answer.Accepted? ==>
                && r == Ok(answer.body.user)
                && storage == StoreSignIn(old(storage), answer.body, stringify)
                && user == Some(answer.body.user) && error.None?
      ensures !answer.Accepted? ==>
                && r == Err(Message(answer, LoginFailedMsg))
                && storage == old(storage) && user == old(user) && error == Some(r.error)
      ensures loading == old(loading)
    {
      error := None;
      if !answer.Accepted? {
        var msg := Message(answer, LoginFailedMsg);
        error := Some(msg);
        return Err(msg);
      }
      storage := StoreSignIn(storage, answer.body, stringify);
      user := Some(answer.body.user);
      return Ok(answer.body.user);
    }

    /** `register`, `verifyEmail`, `forgotPassword` and `resetPassword`: the
        call's answer, or its message recorded and thrown. Nothing else
        changes. */
    method Relay(answer: Answer<()>, fallback: string) returns (r: Result<()>)
      modifies this
      ensures answer.Accepted? ==> r == Ok(()) && error.None?
      ensures !answer.Accepted? ==> r == Err(Message(answer, fallback)) && error == Some(r.error)
      ensures storage == old(storage) && user == old(user) && loading == old(loading)
    {
      error := None;
      if !answer.Accepted? {
        var msg := Message(answer, fallback);
        error := Some(msg);
        return Err(msg);
      }
      return Ok(());
    }

    method Register(answer: Answer<()>) returns (r: Result<()>)
      modifies this
      ensures r.Ok? <==> answer.Accepted?
      ensures r.Err? ==> r.error == Message(answer, RegistrationFailedMsg) && error == Some(r.error)
      ensures storage == old(storage) && user == old(user)
    {
      r := Relay(answer, RegistrationFailedMsg);
    }

    method VerifyEmail(answer: Answer<()>) returns (r: Result<()>)
      modifies this
      ensures r.Ok? <==> answer.Accepted?
      ensures r.Err? ==> r.error == Message(answer, VerificationFailedMsg) && error == Some(r.error)
      ensures storage == old(storage) && user == old(user)
    {
      r := Relay(answer, VerificationFailedMsg);
    }

    method ForgotPassword(answer: Answer<()>) returns (r: Result<()>)
      modifies this
      ensures r.Ok? <==> answer.Accepted?
      ensures r.Err? ==> r.error == Message(answer, RequestFailedMsg) && error == Some(r.error)
      ensures storage == old(storage) && user == old(user)
    {
      r := Relay(answer, RequestFailedMsg);
    }

    method ResetPassword(answer: Answer<()>) returns (r: Result<()>)
      modifies this
      ensures r.Ok? <==> answer.Accepted?
      ensures r.Err? ==> r.error == Message(answer, ResetFailedMsg) && error == Some(r.error)
      ensures storage == old(storage) && user == old(user)
    {
      r := Relay(answer, ResetFailedMsg);
    }

    /** `logout`: both keys go and the user is cleared. */
    method Logout()
      modifies this
      ensures storage == old(storage) - {UserKey, TokenKey} && user.None?
      ensures error == old(error) && loading == old(loading)
    {
      storage := storage - {UserKey, TokenKey};
      user := None;
    }

    /** `updateProfile`: without a stored token nothing is sent and
        `Not authenticated` is thrown; on success the answer is laid over
        the current user, response fields winning, and the result is stored
        and set. `requested` tells whether the request went out. */
    method UpdateProfile(answer: Answer<UserRecord>, stringify: Stringify)
      returns (requested: bool, r: Result<UserRecord>)
      modifies this
      ensures requested <==> Truthy(Get(old(storage), TokenKey))
      ensures !requested ==> r == Err(NotAuthenticatedMsg) && error == Some(NotAuthenticatedMsg)
                             && storage == old(storage) && user == old(user)
      ensures requested && answer.Accepted? ==>
                && var merged := Merge(old(user), answer.body);
                && r == Ok(answer.body) && user == Some(merged)
                && storage == old(storage)[UserKey := stringify(merged)] && error.None?
      ensures requested && !answer.Accepted? ==>
                && r == Err(Message(answer, UpdateFailedMsg)) && error == Some(r.error)
                && storage == old(storage) && user == old(user)
      ensures loading == old(loading)
    {
      error := None;
      var token := Get(storage, TokenKey);
      if !Truthy(token) {
        error := Some(NotAuthenticatedMsg);
        return false, Err(NotAuthenticatedMsg);
      }
      if !answer.Accepted? {
        var msg := Message(answer, UpdateFailedMsg);
        error := Some(msg);
        return true, Err(msg);
      }
      var merged := Merge(user, answer.body);
      storage := storage[UserKey := stringify(merged)];
      user := Some(merged);
      return true, Ok(answer.body);
    }
  }

  /** A signed-in session survives a reload: the next start-up restores the
      same user, provided the user record reads back as written and the
      access token is not empty. */
  lemma LoginThenRestore(storage: Storage, s: SignIn, stringify: Stringify, parse: Parse)
    requires parse(stringify(s.user)) == Some(s.user) && stringify(s.user) != "" && s.accessToken != ""
    ensures RestoreFrom(StoreSignIn(storage, s, stringify), parse) == Restored(Some(s.user), StoreSignIn(storage, s, stringify))
  {
  }

  /** After signing out the next start-up restores nobody and leaves the
      storage as it was. */
  lemma LogoutThenRestore(storage: Storage, parse: Parse)
    ensures var after := storage - {UserKey, TokenKey};
            RestoreFrom(after, parse) == Restored(None, after)
  {
    var after := storage - {UserKey, TokenKey};
    assert UserKey !in after;
  }

  /** A stored user without a token is not restored, and stays stored. */
  lemma UserWithoutTokenNotRestored(storage: Storage, parse: Parse)
    requires UserKey in storage && TokenKey !in storage
    ensures RestoreFrom(storage, parse) == Restored(None, storage)
  {
  }

  /** Every message a refusal throws is non-empty, so a page's own fallback
      for an empty message shows only when the call itself failed with an
      empty message. */
  lemma RefusalMessagesNonEmpty<T>(answer: Answer<T>)
    requires answer.Refused?
    ensures Message(answer, LoginFailedMsg) != "" && Message(answer, RegistrationFailedMsg) != ""
    ensures Message(answer, RequestFailedMsg) != "" && Message(answer, ResetFailedMsg) != ""
    ensures Message(answer, UpdateFailedMsg) != "" && Message(answer, VerificationFailedMsg) != ""
  {
  }
}
