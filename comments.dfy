/** `/api/comments`: the comments on one post, oldest first, each joined with
    its author's name and picture; and adding a comment as the signed-in
    member. */
module Comments {
  import opened Common
  import opened Http
  import opened Seqs
  import opened Schema
  import opened ApiUtils
  import opened Store

  datatype Query = Query(postId: Option<Id>)

  datatype Request = Request(postId: Option<Id>, content: Option<string>)

  /** A row of the listing: the comment's columns without `updatedAt`, and
      the author's name and picture. */
  datatype Listed = Listed(
    id: Id,
    content: string,
    postId: Id,
    createdAt: Time,
    userId: Id,
    userName: string,
    userProfilePicture: Option<string>)

  /** The answer to a new comment: the whole new row and its author. */
  datatype Created = Created(comment: Comment, userName: string, userProfilePicture: Option<string>)

  datatype Body = Many(comments: seq<Listed>) | One(created: Created)

  const PostIdRequiredMsg: string := "Post ID is required"
  const RequiredMsg: string := "Post ID and content are required"

  /** The inner join of one comment with `users` on `comments.user_id =
      users.id`: nothing when no user row has that id. */
  function Joined(c: Comment, users: seq<User>): (r: Option<Listed>)
    ensures r.Some? <==> c.userId in UserIds(users)
    ensures r.Some? ==>
              && r.value.id == c.id && r.value.content == c.content && r.value.postId == c.postId
              && r.value.createdAt == c.createdAt && r.value.userId == c.userId
  {
    match FindUserById(users, c.userId)
    case None => None
    case Some(k) =>
      var u := users[k];
      Some(Listed(c.id, c.content, c.postId, c.createdAt, c.userId, u.name, u.profilePicture))
  }

  /** The join over a sequence of comments, in their order. */
  function JoinAuthors(cs: seq<Comment>, users: seq<User>): (r: seq<Listed>)
    ensures |r| <= |cs|
    ensures forall v | v in r :: exists c | c in cs :: Joined(c, users) == Some(v)
    ensures forall c | c in cs && Joined(c, users).Some? :: Joined(c, users).value in r
    ensures (forall i | 0 <= i < |cs| :: cs[i].userId in UserIds(users)) ==> |r| == |cs|
  {
    if cs == [] then []
    else
      var rest := JoinAuthors(cs[1..], users);
      assert forall c | c in cs[1..] :: c in cs;
      match Joined(cs[0], users)
      case None => rest
      case Some(v) => [v] + rest
  }

  predicate OnPost(pid: Id, c: Comment) { c.postId == pid }

  /** Sort key for `ORDER BY created_at ASC`. */
  function OldestFirst(v: Listed): int { v.createdAt }

  /** The listing for post `pid`, oldest first. */
  function Listing(t: Tables, pid: Id): (r: seq<Listed>)
    ensures multiset(r) == multiset(JoinAuthors(Where(t.comments, c => OnPost(pid, c)), t.users))
    ensures forall i | 0 <= i < |r| :: r[i].postId == pid
    ensures forall i, j | 0 <= i < j < |r| :: r[i].createdAt <= r[j].createdAt
  {
    var joined := JoinAuthors(Where(t.comments, c => OnPost(pid, c)), t.users);
    var r := SortBy(joined, OldestFirst);
    forall i | 0 <= i < |r| ensures r[i].postId == pid {
      SortByMembers(joined, OldestFirst, r[i]);
    }
    forall i, j | 0 <= i < j < |r| ensures r[i].createdAt <= r[j].createdAt {
      assert OldestFirst(r[i]) <= OldestFirst(r[j]);
    }
    r
  }

  /** Every listed row is the join of a comment on the post with its author. */
  lemma ListingSound(t: Tables, pid: Id, v: Listed)
    requires v in Listing(t, pid)
    ensures exists c | c in t.comments :: c.postId == pid && Joined(c, t.users) == Some(v)
  {
    var mine := Where(t.comments, c => OnPost(pid, c));
    SortByMembers(JoinAuthors(mine, t.users), OldestFirst, v);
    var c :| c in mine && Joined(c, t.users) == Some(v);
    var i :| 0 <= i < |mine| && mine[i] == c;
  }

  /** Every comment on the post whose author exists is listed. */
  lemma ListingComplete(t: Tables, pid: Id, i: nat)
    requires i < |t.comments| && t.comments[i].postId == pid && t.comments[i].userId in UserIds(t.users)
    ensures Joined(t.comments[i], t.users).value in Listing(t, pid)
  {
    var mine := Where(t.comments, c => OnPost(pid, c));
    assert t.comments[i] in mine;
    SortByMembers(JoinAuthors(mine, t.users), OldestFirst, Joined(t.comments[i], t.users).value);
  }

  /** With the foreign keys in place no comment on the post is dropped by the
      join: the listing holds every comment on the post. */
  lemma ListingHasEveryComment(t: Tables, pid: Id, i: nat)
    requires ReferencesResolve(t)
    requires i < |t.comments| && t.comments[i].postId == pid
    ensures exists v | v in Listing(t, pid) :: v.id == t.comments[i].id && v.content == t.comments[i].content
  {
    ListingComplete(t, pid, i);
  }

  /** With the foreign keys in place the listing has one row per comment on
      the post: none is dropped and none repeated. */
  lemma ListingCount(t: Tables, pid: Id)
    requires ReferencesResolve(t)
    ensures |Listing(t, pid)| == |Where(t.comments, c => OnPost(pid, c))|
  {
    var mine := Where(t.comments, c => OnPost(pid, c));
    forall i | 0 <= i < |mine| ensures mine[i].userId in UserIds(t.users) {
      var k :| 0 <= k < |t.comments| && t.comments[k] == mine[i];
    }
    assert |multiset(Listing(t, pid))| == |multiset(JoinAuthors(mine, t.users))|;
  }

  predicate Complete(req: Request) {
    req.postId.Some? && Truthy(req.content)
  }

  /** The handler. A comment on a post or by a user that does not exist
      breaks a foreign key: the INSERT fails and the answer is a 500. */
  function Handle(t: Tables, m: Method, query: Query, header: Option<string>, provider: Provider,
                  req: Request, newId: Id, now: Time): (s: Step<Body>)
    ensures m != GET && m != POST ==> s == Step(t, Failure(StatusMethodNotAllowed, MethodNotAllowedMsg))
    ensures m == GET && query.postId.None? ==> s == Step(t, Failure(StatusBadRequest, PostIdRequiredMsg))
    ensures m == GET && query.postId.Some? ==> s == Step(t, Success(StatusOk, Many(Listing(t, query.postId.value))))
    ensures m == POST && Authenticate(header, provider).Err?
            ==> s == Step(t, Failure(StatusUnauthorized, UnauthorizedMsg))
    ensures m == POST && Authenticate(header, provider).Ok? && !Complete(req)
            ==> s == Step(t, Failure(StatusBadRequest, RequiredMsg))
    ensures m == POST && Authenticate(header, provider).Ok? && Complete(req)
            && (req.postId.value !in PostIds(t.posts) || Authenticate(header, provider).value.id !in UserIds(t.users))
            ==> s == Step(t, Failure(StatusServerError, ServerErrorMsg))
    ensures m == POST && Authenticate(header, provider).Ok? && Complete(req)
            && req.postId.value in PostIds(t.posts) && Authenticate(header, provider).value.id in UserIds(t.users)
            ==> s.tables != t
    ensures m == POST && s.tables != t ==>
              && Complete(req) && |s.tables.comments| == |t.comments| + 1
              && var c := s.tables.comments[|t.comments|];
              && s.tables == t.(comments := t.comments + [c])
              && c == NewComment(newId, req.content.value, req.postId.value, Authenticate(header, provider).value.id, now)
              && c.postId in PostIds(t.posts) && c.userId in UserIds(t.users)
              && s.reply.Success? && s.reply.status == StatusCreated && s.reply.value.One?
              && s.reply.value.created.comment == c
              && exists k | 0 <= k < |t.users| :: t.users[k].id == c.userId
                   && s.reply.value.created.userName == t.users[k].name
                   && s.reply.value.created.userProfilePicture == t.users[k].profilePicture
    ensures s.reply.Success? && m == POST ==> s.tables != t
  {
    if m == GET then
      if query.postId.None? then Step(t, Failure(StatusBadRequest, PostIdRequiredMsg))
      else Step(t, Success(StatusOk, Many(Listing(t, query.postId.value))))
    else if m == POST then
      match Authenticate(header, provider)
      case Err(_) => Step(t, Failure(StatusUnauthorized, UnauthorizedMsg))
      case Ok(user) =>
        if !Complete(req) then Step(t, Failure(StatusBadRequest, RequiredMsg))
        else if req.postId.value !in PostIds(t.posts) || user.id !in UserIds(t.users) then
          Step(t, Failure(StatusServerError, ServerErrorMsg))
        else
          var c := NewComment(newId, req.content.value, req.postId.value, user.id, now);
          var k := FindUserById(t.users, user.id).value;
          Step(t.(comments := t.comments + [c]),
               Success(StatusCreated, One(Created(c, t.users[k].name, t.users[k].profilePicture))))
    else Step(t, Failure(StatusMethodNotAllowed, MethodNotAllowedMsg))
  }

  /** A new comment shows up in its post's listing. */
  lemma PostedCommentListed(t: Tables, header: Option<string>, provider: Provider, req: Request, newId: Id, now: Time)
    requires Handle(t, POST, Query(None), header, provider, req, newId, now).reply.Success?
    ensures var s := Handle(t, POST, Query(None), header, provider, req, newId, now);
            exists v | v in Listing(s.tables, req.postId.value) :: v.id == newId && v.content == req.content.value
  {
    var s := Handle(t, POST, Query(None), header, provider, req, newId, now);
    ListingComplete(s.tables, req.postId.value, |t.comments|);
  }

  lemma HandleKeepsValid(t: Tables, m: Method, query: Query, header: Option<string>, provider: Provider,
                         req: Request, newId: Id, now: Time)
    requires TablesValid(t) && newId !in CommentIds(t.comments)
    ensures TablesValid(Handle(t, m, query, header, provider, req, newId, now).tables)
  {
    var s := Handle(t, m, query, header, provider, req, newId, now);
    if s.tables != t {
      forall i | 0 <= i < |t.comments| ensures CommentKey(t.comments[i]) != newId {
        assert t.comments[i] in t.comments;
      }
      AppendKeepsUnique(t.comments, s.tables.comments[|t.comments|], CommentKey);
    }
  }

  /** Appending a comment that takes the counter's id and names an existing
      post and user keeps the database valid under the next counter value. */
  lemma InsertCommentValid(t: Tables, c: Comment, next: Id)
    requires TablesValid(t) && IdsBelow(t, next)
    requires c.id == next && c.postId in PostIds(t.posts) && c.userId in UserIds(t.users)
    ensures TablesValid(t.(comments := t.comments + [c]))
    ensures IdsBelow(t.(comments := t.comments + [c]), next + 1)
  {
    AppendKeepsUnique(t.comments, c, CommentKey);
  }

  method HandleOn(db: Db, m: Method, query: Query, header: Option<string>, provider: Provider,
                  req: Request, now: Time) returns (reply: Reply<Body>)
    requires db.Valid()
    modifies db
    ensures db.Valid()
    ensures var s := Handle(old(db.State()), m, query, header, provider, req, old(db.nextId), now);
            db.State() == s.tables && reply == s.reply
  {
    if m == GET {
      if query.postId.None? {
        return Failure(StatusBadRequest, PostIdRequiredMsg);
      }
      return Success(StatusOk, Many(Listing(db.State(), query.postId.value)));
    }
    if m != POST {
      return Failure(StatusMethodNotAllowed, MethodNotAllowedMsg);
    }
    var auth := Authenticate(header, provider);
    if auth.Err? {
      return Failure(StatusUnauthorized, UnauthorizedMsg);
    }
    if !Complete(req) {
      return Failure(StatusBadRequest, RequiredMsg);
    }
    if req.postId.value !in PostIds(db.posts) || auth.value.id !in UserIds(db.users) {
      return Failure(StatusServerError, ServerErrorMsg);
    }
    var c := NewComment(db.nextId, req.content.value, req.postId.value, auth.value.id, now);
    InsertCommentValid(db.State(), c, db.nextId);
    db.comments := db.comments + [c];
    db.nextId := db.nextId + 1;
    var k := FindUserById(db.users, auth.value.id).value;
    return Success(StatusCreated, One(Created(c, db.users[k].name, db.users[k].profilePicture)));
  }
}
