/** `/api/posts`: the published posts newest first, one post by slug (which
    counts a view), and creating a post under a slug nobody uses yet. */
module Posts {
  import opened Common
  import opened Http
  import opened Seqs
  import opened Schema
  import opened ApiUtils
  import opened Store

  datatype Query = Query(slug: Option<string>)

  datatype Request = Request(
    title: Option<string>,
    content: Option<string>,
    imageUrl: Option<string>,
    slug: Option<string>)

  /** A single post, or the listing. */
  datatype Body = One(post: Post) | Many(posts: seq<Post>)

  const NotFoundMsg: string := "Post not found"
  const MissingMsg: string := "Missing required fields"
  const SlugTakenMsg: string := "Slug already in use"

  predicate Published(p: Post) { p.isPublished }

  /** Sort key for `ORDER BY created_at DESC`. */
  function NewestFirst(p: Post): int { -p.createdAt }

  /** `WHERE is_published = true ORDER BY created_at DESC`. */
  function Listing(posts: seq<Post>): (r: seq<Post>)
    ensures multiset(r) == multiset(Where(posts, Published))
    ensures forall i | 0 <= i < |r| :: r[i].isPublished
    ensures forall i, j | 0 <= i < j < |r| :: r[i].createdAt >= r[j].createdAt
  {
    var r := SortBy(Where(posts, Published), NewestFirst);
    forall i | 0 <= i < |r| ensures r[i].isPublished {
      assert r[i] in multiset(Where(posts, Published));
    }
    forall i, j | 0 <= i < j < |r| ensures r[i].createdAt >= r[j].createdAt {
      assert NewestFirst(r[i]) <= NewestFirst(r[j]);
    }
    r
  }

  /** The post with one more view, and nothing else different. */
  function CountView(p: Post): (q: Post)
    ensures q.viewCount == p.viewCount + 1
    ensures q.(viewCount := p.viewCount) == p
  {
    p.(viewCount := p.viewCount + 1)
  }

  predicate Complete(req: Request) {
    Truthy(req.title) && Truthy(req.content) && Truthy(req.slug)
  }

  /** The handler. `header` is the Authorization header, `provider` the
      identity provider, `newId` the id a new row gets. */
  function Handle(t: Tables, m: Method, query: Query, header: Option<string>, provider: Provider,
                  req: Request, newId: Id, now: Time): (s: Step<Body>)
    ensures m != GET && m != POST ==> s == Step(t, Failure(StatusMethodNotAllowed, MethodNotAllowedMsg))
    ensures m == GET && !Truthy(query.slug) ==> s == Step(t, Success(StatusOk, Many(Listing(t.posts))))
    ensures m == GET && Truthy(query.slug) && FindPostBySlug(t.posts, query.slug.value).None?
            ==> s == Step(t, Failure(StatusNotFound, NotFoundMsg))
    ensures m == GET && Truthy(query.slug) && FindPostBySlug(t.posts, query.slug.value).Some? ==>
              && var k := FindPostBySlug(t.posts, query.slug.value).value;
              && s.reply == Success(StatusOk, One(t.posts[k]))
              && s.tables == t.(posts := t.posts[k := CountView(t.posts[k])])
    ensures m == POST && Authenticate(header, provider).Err?
            ==> s == Step(t, Failure(StatusUnauthorized, UnauthorizedMsg))
    ensures m == POST && Authenticate(header, provider).Ok? && !Complete(req)
            ==> s == Step(t, Failure(StatusBadRequest, MissingMsg))
    ensures m == POST && Authenticate(header, provider).Ok? && Complete(req)
            && FindPostBySlug(t.posts, req.slug.value).Some?
            ==> s == Step(t, Failure(StatusBadRequest, SlugTakenMsg))
    ensures m == POST && Authenticate(header, provider).Ok? && Complete(req)
            && FindPostBySlug(t.posts, req.slug.value).None? ==>
              (s.tables != t <==> Authenticate(header, provider).value.id in UserIds(t.users))
    ensures m == POST && Authenticate(header, provider).Ok? && Complete(req)
            && FindPostBySlug(t.posts, req.slug.value).None?
            && Authenticate(header, provider).value.id !in UserIds(t.users)
            ==> s == Step(t, Failure(StatusServerError, ServerErrorMsg))
    ensures m == POST && s.tables != t ==>
              && Complete(req) && |s.tables.posts| == |t.posts| + 1
              && var p := s.tables.posts[|t.posts|];
              && s.tables == t.(posts := t.posts + [p])
              && s.reply == Success(StatusCreated, One(p))
              && p.id == newId && p.authorId == Authenticate(header, provider).value.id
              && p.title == req.title.value && p.content == req.content.value
              && p.imageUrl == req.imageUrl && p.slug == req.slug.value
              && p.isPublished && p.viewCount == 0
  {
    if m == GET then
      if !Truthy(query.slug) then Step(t, Success(StatusOk, Many(Listing(t.posts))))
      else
        match FindPostBySlug(t.posts, query.slug.value)
        case None => Step(t, Failure(StatusNotFound, NotFoundMsg))
        case Some(k) => Step(t.(posts := t.posts[k := CountView(t.posts[k])]), Success(StatusOk, One(t.posts[k])))
    else if m == POST then
      match Authenticate(header, provider)
      case Err(_) => Step(t, Failure(StatusUnauthorized, UnauthorizedMsg))
      case Ok(user) =>
        if !Complete(req) then Step(t, Failure(StatusBadRequest, MissingMsg))
        else if FindPostBySlug(t.posts, req.slug.value).Some? then Step(t, Failure(StatusBadRequest, SlugTakenMsg))
        else if user.id !in UserIds(t.users) then Step(t, Failure(StatusServerError, ServerErrorMsg))
        else
          var p := NewPost(newId, req.title.value, req.content.value, req.imageUrl, user.id, req.slug.value, now);
          Step(t.(posts := t.posts + [p]), Success(StatusCreated, One(p)))
    else Step(t, Failure(StatusMethodNotAllowed, MethodNotAllowedMsg))
  }

  /** Reading a post by slug does not look at `isPublished`: a draft is
      served (and counted) like any other post. */
  lemma DraftsReadableBySlug(t: Tables, slug: string, k: nat, header: Option<string>, provider: Provider,
                             req: Request, newId: Id, now: Time)
    requires PostsValid(t.posts) && k < |t.posts| && t.posts[k].slug == slug && slug != ""
    ensures Handle(t, GET, Query(Some(slug)), header, provider, req, newId, now).reply
            == Success(StatusOk, One(t.posts[k]))
  {
    assert PostSlug(t.posts[k]) == slug;
  }

  /** Every request keeps the database's constraints, among them the unique
      slugs. */
  lemma HandleKeepsValid(t: Tables, m: Method, query: Query, header: Option<string>, provider: Provider,
                         req: Request, newId: Id, now: Time)
    requires TablesValid(t) && newId !in PostIds(t.posts)
    ensures TablesValid(Handle(t, m, query, header, provider, req, newId, now).tables)
  {
    var s := Handle(t, m, query, header, provider, req, newId, now);
    if m == GET && s.tables != t {
      var k := FindPostBySlug(t.posts, query.slug.value).value;
      SamePostKeysValid(t, t.posts[k := CountView(t.posts[k])]);
    } else if m == POST && s.tables != t {
      InsertPostValid(t, s.tables.posts[|t.posts|]);
    }
  }

  method HandleOn(db: Db, m: Method, query: Query, header: Option<string>, provider: Provider,
                  req: Request, now: Time) returns (reply: Reply<Body>)
    requires db.Valid()
    modifies db
    ensures db.Valid()
    ensures var s := Handle(old(db.State()), m, query, header, provider, req, old(db.nextId), now);
            db.State() == s.tables && reply == s.reply
  {
    if m == GET {
      if !Truthy(query.slug) {
        return Success(StatusOk, Many(Listing(db.posts)));
      }
      var found := FindPostBySlug(db.posts, query.slug.value);
      if found.None? {
        return Failure(StatusNotFound, NotFoundMsg);
      }
      var k := found.value;
      var post := db.posts[k];
      var updated := db.posts[k := CountView(post)];
      SamePostKeysValid(db.State(), updated);
      db.posts := updated;
      return Success(StatusOk, One(post));
    }
    if m != POST {
      return Failure(StatusMethodNotAllowed, MethodNotAllowedMsg);
    }
    var auth := Authenticate(header, provider);
    if auth.Err? {
      return Failure(StatusUnauthorized, UnauthorizedMsg);
    }
    if !Complete(req) {
      return Failure(StatusBadRequest, MissingMsg);
    }
    var taken := FindPostBySlug(db.posts, req.slug.value);
    if taken.Some? {
      return Failure(StatusBadRequest, SlugTakenMsg);
    }
    if auth.value.id !in UserIds(db.users) {
      return Failure(StatusServerError, ServerErrorMsg);
    }
    var p := NewPost(db.nextId, req.title.value, req.content.value, req.imageUrl, auth.value.id, req.slug.value, now);
    FreshId(db.State(), db.nextId);
    InsertPostValid(db.State(), p);
    db.posts := db.posts + [p];
    db.nextId := db.nextId + 1;
    return Success(StatusCreated, One(p));
  }
}
