/** The database as the handlers see it: one mutable sequence per table and
    the counter that hands out fresh row ids, with the lookups the handlers
    run against it. */
module Store {
  import opened Common
  import opened Http
  import opened Seqs
  import opened Schema

  /** The new database state and the HTTP reply of one handler call. */
  datatype Step<T> = Step(tables: Tables, reply: Reply<T>)

  /** Every row id, in every table, was handed out before `next`. */
  predicate IdsBelow(t: Tables, next: Id) {
    && (forall i | 0 <= i < |t.users| :: t.users[i].id < next)
    && (forall i | 0 <= i < |t.posts| :: t.posts[i].id < next)
    && (forall i | 0 <= i < |t.comments| :: t.comments[i].id < next)
    && (forall i | 0 <= i < |t.events| :: t.events[i].id < next)
    && (forall i | 0 <= i < |t.messages| :: t.messages[i].id < next)
    && (forall i | 0 <= i < |t.uploads| :: t.uploads[i].id < next)
    && (forall i | 0 <= i < |t.matches| :: t.matches[i].id < next)
  }

  class Db {
    var users: seq<User>
    var posts: seq<Post>
    var comments: seq<Comment>
    var events: seq<Event>
    var messages: seq<Message>
    var uploads: seq<Upload>
    var matches: seq<MatchRecord>
    var nextId: Id

    function State(): Tables
      reads this
    {
      Tables(users, posts, comments, events, messages, uploads, matches)
    }

    ghost predicate Valid()
      reads this
    {
      TablesValid(State()) && IdsBelow(State(), nextId)
    }

    constructor ()
      ensures State() == EmptyTables && nextId == 0 && Valid()
    {
      users, posts, comments, events, messages, uploads, matches := [], [], [], [], [], [], [];
      nextId := 0;
    }

  }

  /** A fresh id is none of the existing ones. */
  lemma FreshId(t: Tables, next: Id)
    requires IdsBelow(t, next)
    ensures next !in UserIds(t.users) && next !in PostIds(t.posts)
    ensures next !in CommentIds(t.comments) && next !in EventIds(t.events)
    ensures next !in MessageIds(t.messages) && next !in UploadIds(t.uploads)
    ensures next !in MatchIds(t.matches)
  {
  }

  // ---------------------------------------------------------------------
  // Lookups: `rows[0]` of a `SELECT ... WHERE`, in table order

  /** `WHERE email = e`. */
  function FindUserByEmail(users: seq<User>, e: string): (r: Option<nat>)
    ensures r.Some? ==> r.value < |users| && users[r.value].email == e
    ensures r.Some? ==> forall i | 0 <= i < r.value :: users[i].email != e
    ensures r.None? <==> forall i | 0 <= i < |users| :: users[i].email != e
  {
    FirstIndex(users, (u: User) => u.email == e)
  }

  /** `WHERE id = x`. */
  function FindUserById(users: seq<User>, x: Id): (r: Option<nat>)
    ensures r.Some? ==> r.value < |users| && users[r.value].id == x
    ensures r.Some? ==> forall i | 0 <= i < r.value :: users[i].id != x
    ensures r.None? <==> forall i | 0 <= i < |users| :: users[i].id != x
  {
    FirstIndex(users, (u: User) => u.id == x)
  }

  /** The pair of columns a token lookup reads: the email-verification
      token and its expiry, or the password-reset token and its expiry. */
  datatype TokenColumns = VerificationColumns | ResetColumns

  /** `<token> = token AND <expires> > now` for one row. */
  predicate HoldsToken(u: User, cols: TokenColumns, token: string, now: Time) {
    match cols
    case VerificationColumns =>
      u.verificationToken == Some(token) && u.verificationTokenExpires.Some? && now < u.verificationTokenExpires.value
    case ResetColumns =>
      u.resetToken == Some(token) && u.resetTokenExpires.Some? && now < u.resetTokenExpires.value
  }

  /** `WHERE <token> = token AND <expires> > now`, first row: the first user
      holding the token before its expiry. */
  function FindByToken(users: seq<User>, cols: TokenColumns, token: string, now: Time): (r: Option<nat>)
    ensures r.Some? ==> r.value < |users| && HoldsToken(users[r.value], cols, token, now)
    ensures r.Some? ==> forall i | 0 <= i < r.value :: !HoldsToken(users[i], cols, token, now)
    ensures r.None? <==> forall i | 0 <= i < |users| :: !HoldsToken(users[i], cols, token, now)
  {
    FirstIndex(users, (u: User) => HoldsToken(u, cols, token, now))
  }

  /** `WHERE slug = s`. */
  function FindPostBySlug(posts: seq<Post>, s: string): (r: Option<nat>)
    ensures r.Some? ==> r.value < |posts| && posts[r.value].slug == s
    ensures r.Some? ==> forall i | 0 <= i < r.value :: posts[i].slug != s
    ensures r.None? <==> forall i | 0 <= i < |posts| :: posts[i].slug != s
  {
    FirstIndex(posts, (p: Post) => p.slug == s)
  }

  /** With unique emails the row found is the only one with that email. */
  lemma FoundUserIsUnique(users: seq<User>, e: string, i: nat)
    requires UsersValid(users)
    requires i < |users| && users[i].email == e
    ensures FindUserByEmail(users, e) == Some(i)
  {
  }
}
