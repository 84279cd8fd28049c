/** `/api/uploads`: the gallery, newest first, and registering an uploaded
    file. */
module Uploads {
  import opened Common
  import opened Http
  import opened Seqs
  import opened Schema
  import opened ApiUtils
  import opened Store

  datatype Request = Request(
    title: Option<string>,
    description: Option<string>,
    fileUrl: Option<string>,
    thumbnailUrl: Option<string>,
    uploadType: Option<string>,
    sizeBytes: Option<int>)

  datatype Body = Many(uploads: seq<Upload>) | One(upload: Upload)

  const MissingMsg: string := "Missing required fields"

  /** Sort key for `ORDER BY created_at DESC`. */
  function NewestFirst(u: Upload): int { -u.createdAt }

  /** Every upload, newest first. */
  function Listing(uploads: seq<Upload>): (r: seq<Upload>)
    ensures multiset(r) == multiset(uploads)
    ensures forall i, j | 0 <= i < j < |r| :: r[i].createdAt >= r[j].createdAt
  {
    var r := SortBy(uploads, NewestFirst);
    forall i, j | 0 <= i < j < |r| ensures r[i].createdAt >= r[j].createdAt {
      assert NewestFirst(r[i]) <= NewestFirst(r[j]);
    }
    r
  }

  /** A size of 0 counts as missing. */
  predicate Complete(req: Request) {
    Truthy(req.title) && Truthy(req.fileUrl) && Truthy(req.uploadType) && NumberTruthy(req.sizeBytes)
  }

  function Handle(t: Tables, m: Method, header: Option<string>, provider: Provider, req: Request,
                  newId: Id, now: Time): (s: Step<Body>)
    ensures m != GET && m != POST ==> s == Step(t, Failure(StatusMethodNotAllowed, MethodNotAllowedMsg))
    ensures m == GET ==> s == Step(t, Success(StatusOk, Many(Listing(t.uploads))))
    ensures m == POST && Authenticate(header, provider).Err?
            ==> s == Step(t, Failure(StatusUnauthorized, UnauthorizedMsg))
    ensures m == POST && Authenticate(header, provider).Ok? && !Complete(req)
            ==> s == Step(t, Failure(StatusBadRequest, MissingMsg))
    ensures m == POST && Authenticate(header, provider).Ok? && Complete(req) ==>
              (s.tables != t <==> Authenticate(header, provider).value.id in UserIds(t.users))
    ensures m == POST && Authenticate(header, provider).Ok? && Complete(req)
            && Authenticate(header, provider).value.id !in UserIds(t.users)
            ==> s == Step(t, Failure(StatusServerError, ServerErrorMsg))
    ensures m == POST && s.tables != t ==>
              && Complete(req) && |s.tables.uploads| == |t.uploads| + 1
              && var u := s.tables.uploads[|t.uploads|];
              && s.tables == t.(uploads := t.uploads + [u])
              && s.reply == Success(StatusCreated, One(u))
              && u.id == newId && u.uploadedBy == Authenticate(header, provider).value.id
              && u.title == req.title.value && u.description == req.description
              && u.fileUrl == req.fileUrl.value && u.thumbnailUrl == req.thumbnailUrl
              && u.uploadType == req.uploadType.value && u.sizeBytes == req.sizeBytes.value && u.sizeBytes != 0
              && u.createdAt == now
    ensures m == POST && s.reply.Success? ==> s.tables != t
  {
    if m == GET then Step(t, Success(StatusOk, Many(Listing(t.uploads))))
    else if m == POST then
      match Authenticate(header, provider)
      case Err(_) => Step(t, Failure(StatusUnauthorized, UnauthorizedMsg))
      case Ok(user) =>
        if !Complete(req) then Step(t, Failure(StatusBadRequest, MissingMsg))
        else if user.id !in UserIds(t.users) then Step(t, Failure(StatusServerError, ServerErrorMsg))
        else
          var u := NewUpload(newId, req.title.value, req.description, req.fileUrl.value, req.thumbnailUrl,
                             user.id, req.uploadType.value, req.sizeBytes.value, now);
          Step(t.(uploads := t.uploads + [u]), Success(StatusCreated, One(u)))
    else Step(t, Failure(StatusMethodNotAllowed, MethodNotAllowedMsg))
  }

  lemma HandleKeepsValid(t: Tables, m: Method, header: Option<string>, provider: Provider, req: Request,
                         newId: Id, now: Time)
    requires TablesValid(t) && newId !in UploadIds(t.uploads)
    ensures TablesValid(Handle(t, m, header, provider, req, newId, now).tables)
  {
    var s := Handle(t, m, header, provider, req, newId, now);
    if s.tables != t {
      forall i | 0 <= i < |t.uploads| ensures UploadKey(t.uploads[i]) != newId {
        assert t.uploads[i] in t.uploads;
      }
      AppendKeepsUnique(t.uploads, s.tables.uploads[|t.uploads|], UploadKey);
    }
  }

  method HandleOn(db: Db, m: Method, header: Option<string>, provider: Provider, req: Request, now: Time)
    returns (reply: Reply<Body>)
    requires db.Valid()
    modifies db
    ensures db.Valid()
    ensures var s := Handle(old(db.State()), m, header, provider, req, old(db.nextId), now);
            db.State() == s.tables && reply == s.reply
  {
    if m == GET {
      return Success(StatusOk, Many(Listing(db.uploads)));
    }
    if m != POST {
      return Failure(StatusMethodNotAllowed, MethodNotAllowedMsg);
    }
    var auth := Authenticate(header, provider);
    if auth.Err? {
      return Failure(StatusUnauthorized, UnauthorizedMsg);
    }
    if !Complete(req) {
      return Failure(StatusBadRequest, MissingMsg);
    }
    if auth.value.id !in UserIds(db.users) {
      return Failure(StatusServerError, ServerErrorMsg);
    }
    var u := NewUpload(db.nextId, req.title.value, req.description, req.fileUrl.value, req.thumbnailUrl,
                       auth.value.id, req.uploadType.value, req.sizeBytes.value, now);
    db.uploads := db.uploads + [u];
    db.nextId := db.nextId + 1;
    return Success(StatusCreated, One(u));
  }
}
