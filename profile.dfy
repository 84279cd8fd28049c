/** `/api/profile`: the signed-in member reads or edits their own row. The
    caller is authenticated before the method is looked at. */
module Profile {
  import opened Common
  import opened Http
  import opened Schema
  import opened ApiUtils
  import opened Store

  datatype Request = Request(
    name: Option<string>,
    phone: Option<string>,
    role: Option<string>,
    profilePicture: Option<string>)

  /** The columns GET selects. */
  datatype View = View(
    id: Id,
    name: string,
    email: string,
    phone: string,
    role: string,
    profilePicture: Option<string>,
    isAdmin: bool,
    createdAt: Time)

  /** The columns PUT returns. */
  datatype Updated = Updated(
    id: Id,
    name: string,
    email: string,
    phone: string,
    role: string,
    profilePicture: Option<string>)

  /** A PUT whose UPDATE matched no row answers 200 with no body (`None`). */
  datatype Body = Shown(view: View) | Saved(updated: Option<Updated>)

  const NotFoundMsg: string := "User not found"
  const RequiredMsg: string := "Required fields cannot be empty"

  function ViewOf(u: User): View {
    View(u.id, u.name, u.email, u.phone, u.role, u.profilePicture, u.isAdmin, u.createdAt)
  }

  function UpdatedOf(u: User): Updated {
    Updated(u.id, u.name, u.email, u.phone, u.role, u.profilePicture)
  }

  predicate Complete(req: Request) {
    Truthy(req.name) && Truthy(req.phone) && Truthy(req.role)
  }

  /** The UPDATE of a complete request: the four profile columns and
      `updatedAt`; an empty picture becomes null; the id, the email, the
      password and every token column are kept. */
  function ApplyEdit(u: User, req: Request, now: Time): (v: User)
    requires Complete(req)
    ensures v.name == req.name.value && v.phone == req.phone.value && v.role == req.role.value
    ensures v.profilePicture == OrNull(req.profilePicture) && v.updatedAt == now
    ensures v.(name := u.name, phone := u.phone, role := u.role, profilePicture := u.profilePicture,
               updatedAt := u.updatedAt) == u
  {
    u.(name := req.name.value, phone := req.phone.value, role := req.role.value,
       profilePicture := OrNull(req.profilePicture), updatedAt := now)
  }

  /** The handler: authentication, then GET or PUT on the caller's row. */
  function Handle(t: Tables, m: Method, header: Option<string>, provider: Provider, req: Request, now: Time)
    : (s: Step<Body>)
    ensures Authenticate(header, provider).Err? ==> s == Step(t, Failure(StatusUnauthorized, UnauthorizedMsg))
    ensures Authenticate(header, provider).Ok? && m != GET && m != PUT
            ==> s == Step(t, Failure(StatusMethodNotAllowed, MethodNotAllowedMsg))
    ensures m == GET && Authenticate(header, provider).Ok? ==>
              && s.tables == t
              && var id := Authenticate(header, provider).value.id;
              && (id !in UserIds(t.users) ==> s.reply == Failure(StatusNotFound, NotFoundMsg))
              && (forall k | 0 <= k < |t.users| && t.users[k].id == id ::
                    UsersValid(t.users) ==> s.reply == Success(StatusOk, Shown(ViewOf(t.users[k]))))
    ensures m == PUT && Authenticate(header, provider).Ok? && !Complete(req)
            ==> s == Step(t, Failure(StatusBadRequest, RequiredMsg))
    ensures m == PUT && Authenticate(header, provider).Ok? && Complete(req) ==>
              && var id := Authenticate(header, provider).value.id;
              && (id !in UserIds(t.users) ==> s == Step(t, Success(StatusOk, Saved(None))))
              && (forall k | 0 <= k < |t.users| && t.users[k].id == id :: UsersValid(t.users) ==>
                    && s.tables == t.(users := t.users[k := ApplyEdit(t.users[k], req, now)])
                    && s.reply == Success(StatusOk, Saved(Some(UpdatedOf(s.tables.users[k])))))
  {
    match Authenticate(header, provider)
    case Err(_) => Step(t, Failure(StatusUnauthorized, UnauthorizedMsg))
    case Ok(user) =>
      if m == GET then
        match FindUserById(t.users, user.id)
        case None => Step(t, Failure(StatusNotFound, NotFoundMsg))
        case Some(k) => Step(t, Success(StatusOk, Shown(ViewOf(t.users[k]))))
      else if m == PUT then
        if !Complete(req) then Step(t, Failure(StatusBadRequest, RequiredMsg))
        else
          match FindUserById(t.users, user.id)
          case None => Step(t, Success(StatusOk, Saved(None)))
          case Some(k) =>
            var v := ApplyEdit(t.users[k], req, now);
            Step(t.(users := t.users[k := v]), Success(StatusOk, Saved(Some(UpdatedOf(v)))))
      else Step(t, Failure(StatusMethodNotAllowed, MethodNotAllowedMsg))
  }

  lemma HandleKeepsValid(t: Tables, m: Method, header: Option<string>, provider: Provider, req: Request, now: Time)
    requires TablesValid(t)
    ensures TablesValid(Handle(t, m, header, provider, req, now).tables)
  {
    var a := Authenticate(header, provider);
    if a.Ok? && m == PUT && Complete(req) {
      match FindUserById(t.users, a.value.id)
      case None =>
      case Some(k) => SameUserKeysValid(t, t.users[k := ApplyEdit(t.users[k], req, now)]);
    }
  }

  /** What a PUT saved is what the next GET shows, and the email the
      member signs in with is the one they had. */
  lemma EditThenShow(t: Tables, header: Option<string>, provider: Provider, req: Request, now: Time, k: nat)
    requires UsersValid(t.users) && Complete(req)
    requires Authenticate(header, provider).Ok? && k < |t.users| && t.users[k].id == Authenticate(header, provider).value.id
    ensures var t2 := Handle(t, PUT, header, provider, req, now).tables;
            var r := Handle(t2, GET, header, provider, req, now).reply;
            && r.Success? && r.value.Shown?
            && r.value.view.name == req.name.value && r.value.view.phone == req.phone.value
            && r.value.view.role == req.role.value && r.value.view.profilePicture == OrNull(req.profilePicture)
            && r.value.view.email == t.users[k].email
  {
    var t2 := Handle(t, PUT, header, provider, req, now).tables;
    SameUserKeysValid(t.(posts := [], comments := [], events := [], messages := [], uploads := [], matches := []),
                      t2.users);
  }

  method HandleOn(db: Db, m: Method, header: Option<string>, provider: Provider, req: Request, now: Time)
    returns (reply: Reply<Body>)
    requires db.Valid()
    modifies db
    ensures db.Valid()
    ensures var s := Handle(old(db.State()), m, header, provider, req, now);
            db.State() == s.tables && reply == s.reply
    ensures db.nextId == old(db.nextId)
  {
    var auth := Authenticate(header, provider);
    if auth.Err? {
      return Failure(StatusUnauthorized, UnauthorizedMsg);
    }
    if m != GET && m != PUT {
      return Failure(StatusMethodNotAllowed, MethodNotAllowedMsg);
    }
    if m == PUT && !Complete(req) {
      return Failure(StatusBadRequest, RequiredMsg);
    }
    var found := FindUserById(db.users, auth.value.id);
    if found.None? {
      if m == GET {
        return Failure(StatusNotFound, NotFoundMsg);
      }
      return Success(StatusOk, Saved(None));
    }
    var k := found.value;
    if m == GET {
      return Success(StatusOk, Shown(ViewOf(db.users[k])));
    }
    var v := ApplyEdit(db.users[k], req, now);
    var updated := db.users[k := v];
    SameUserKeysValid(db.State(), updated);
    db.users := updated;
    return Success(StatusOk, Saved(Some(UpdatedOf(v))));
  }
}
