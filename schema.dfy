/** The seven tables of the database: one row type per table, the defaults
    a fresh row receives, the uniqueness and foreign-key constraints every
    state of the database satisfies, and the `ON DELETE CASCADE` behaviour of
    the foreign keys. Columns that may hold NULL are `Option`s; `NOT NULL`
    columns and defaulted booleans and counters are plain values. */
module Schema {
  import opened Common
  import opened Text
  import opened Seqs

  // ---------------------------------------------------------------------
  // Rows

  datatype User = User(
    id: Id,
    name: string,
    phone: string,
    email: string,
    passwordHash: string,
    role: string,
    createdAt: Time,
    updatedAt: Time,
    profilePicture: Option<string>,
    verificationToken: Option<string>,
    verificationTokenExpires: Option<Time>,
    isVerified: bool,
    isAdmin: bool,
    resetToken: Option<string>,
    resetTokenExpires: Option<Time>)

  datatype Post = Post(
    id: Id,
    title: string,
    content: string,
    imageUrl: Option<string>,
    authorId: Id,
    createdAt: Time,
    updatedAt: Time,
    isPublished: bool,
    viewCount: int,
    slug: string)

  datatype Comment = Comment(
    id: Id,
    content: string,
    postId: Id,
    userId: Id,
    createdAt: Time,
    updatedAt: Time)

  datatype Event = Event(
    id: Id,
    title: string,
    description: Option<string>,
    startTime: Time,
    endTime: Time,
    createdBy: Id,
    createdAt: Time,
    updatedAt: Time,
    eventType: string,
    isPublic: bool)

  datatype Message = Message(
    id: Id,
    content: string,
    senderId: Id,
    createdAt: Time,
    isRead: bool)

  datatype Upload = Upload(
    id: Id,
    title: string,
    description: Option<string>,
    fileUrl: string,
    thumbnailUrl: Option<string>,
    uploadedBy: Id,
    createdAt: Time,
    uploadType: string,
    sizeBytes: int)

  /** A row of the `matches` table. Opponent and date are required; the
      result, both scores and the notes may be NULL. */
  datatype MatchRecord = MatchRecord(
    id: Id,
    opponent: string,
    matchDate: Time,
    matchResult: Option<string>,
    ourScore: Option<int>,
    opponentScore: Option<int>,
    notes: Option<string>,
    createdAt: Time,
    recordedBy: Id)

  // ---------------------------------------------------------------------
  // Inserted rows and their column defaults

  /** A user row as an insert that names only the given columns leaves it. */
  function NewUser(id: Id, name: string, phone: string, email: string, passwordHash: string,
                   role: string, now: Time, token: Option<string>, expires: Option<Time>): (u: User)
    ensures !u.isVerified && !u.isAdmin
    ensures u.profilePicture.None? && u.resetToken.None? && u.resetTokenExpires.None?
    ensures u.createdAt == now && u.updatedAt == now
  {
    User(id, name, phone, email, passwordHash, role, now, now, None, token, expires,
         false, false, None, None)
  }

  function NewPost(id: Id, title: string, content: string, imageUrl: Option<string>,
                   authorId: Id, slug: string, now: Time): (p: Post)
    ensures p.isPublished && p.viewCount == 0
    ensures p.createdAt == now && p.updatedAt == now
  {
    Post(id, title, content, imageUrl, authorId, now, now, true, 0, slug)
  }

  function NewComment(id: Id, content: string, postId: Id, userId: Id, now: Time): (c: Comment)
    ensures c.createdAt == now && c.updatedAt == now
  {
    Comment(id, content, postId, userId, now, now)
  }

  /** `isPublic` left out of the insert (None) takes the column default. */
  function NewEvent(id: Id, title: string, description: Option<string>, startTime: Time,
                    endTime: Time, createdBy: Id, eventType: string, isPublic: Option<bool>,
                    now: Time): (e: Event)
    ensures e.isPublic <==> isPublic != Some(false)
    ensures e.createdAt == now && e.updatedAt == now
  {
    Event(id, title, description, startTime, endTime, createdBy, now, now, eventType,
          if isPublic.Some? then isPublic.value else true)
  }

  function NewMessage(id: Id, content: string, senderId: Id, now: Time): (m: Message)
    ensures !m.isRead && m.createdAt == now
  {
    Message(id, content, senderId, now, false)
  }

  function NewUpload(id: Id, title: string, description: Option<string>, fileUrl: string,
                     thumbnailUrl: Option<string>, uploadedBy: Id, uploadType: string,
                     sizeBytes: int, now: Time): (u: Upload)
    ensures u.createdAt == now
  {
    Upload(id, title, description, fileUrl, thumbnailUrl, uploadedBy, now, uploadType, sizeBytes)
  }

  function NewMatch(id: Id, opponent: string, matchDate: Time, matchResult: Option<string>,
                    ourScore: Option<int>, opponentScore: Option<int>, notes: Option<string>,
                    recordedBy: Id, now: Time): (m: MatchRecord)
    ensures m.createdAt == now
  {
    MatchRecord(id, opponent, matchDate, matchResult, ourScore, opponentScore, notes, now, recordedBy)
  }

  // ---------------------------------------------------------------------
  // The database and its constraints

  datatype Tables = Tables(
    users: seq<User>,
    posts: seq<Post>,
    comments: seq<Comment>,
    events: seq<Event>,
    messages: seq<Message>,
    uploads: seq<Upload>,
    matches: seq<MatchRecord>)

  const EmptyTables: Tables := Tables([], [], [], [], [], [], [])

  function UserKey(u: User): Id { u.id }
  function UserEmail(u: User): string { u.email }
  function PostKey(p: Post): Id { p.id }
  function PostSlug(p: Post): string { p.slug }
  function CommentKey(c: Comment): Id { c.id }
  function EventKey(e: Event): Id { e.id }
  function MessageKey(m: Message): Id { m.id }
  function UploadKey(u: Upload): Id { u.id }
  function MatchKey(m: MatchRecord): Id { m.id }

  function UserIds(users: seq<User>): set<Id> { set u | u in users :: u.id }
  function PostIds(posts: seq<Post>): set<Id> { set p | p in posts :: p.id }
  function CommentIds(comments: seq<Comment>): set<Id> { set c | c in comments :: c.id }
  function EventIds(events: seq<Event>): set<Id> { set e | e in events :: e.id }
  function MessageIds(messages: seq<Message>): set<Id> { set m | m in messages :: m.id }
  function UploadIds(uploads: seq<Upload>): set<Id> { set u | u in uploads :: u.id }
  function MatchIds(matches: seq<MatchRecord>): set<Id> { set m | m in matches :: m.id }

  /** Primary key, `email UNIQUE`, and the handlers' habit of storing emails
      lower-cased. */
  predicate UsersValid(users: seq<User>) {
    && UniqueBy(users, UserKey)
    && UniqueBy(users, UserEmail)
    && forall i | 0 <= i < |users| :: IsLowerCase(users[i].email)
  }

  /** Primary key and `slug UNIQUE`. */
  predicate PostsValid(posts: seq<Post>) {
    UniqueBy(posts, PostKey) && UniqueBy(posts, PostSlug)
  }

  /** Every foreign key names an existing row. */
  predicate ReferencesResolve(t: Tables) {
    && (forall i | 0 <= i < |t.posts| :: t.posts[i].authorId in UserIds(t.users))
    && (forall i | 0 <= i < |t.comments| :: t.comments[i].postId in PostIds(t.posts))
    && (forall i | 0 <= i < |t.comments| :: t.comments[i].userId in UserIds(t.users))
    && (forall i | 0 <= i < |t.events| :: t.events[i].createdBy in UserIds(t.users))
    && (forall i | 0 <= i < |t.messages| :: t.messages[i].senderId in UserIds(t.users))
    && (forall i | 0 <= i < |t.uploads| :: t.uploads[i].uploadedBy in UserIds(t.users))
    && (forall i | 0 <= i < |t.matches| :: t.matches[i].recordedBy in UserIds(t.users))
  }

  /** The primary key of each of the other five tables. */
  predicate RowKeysUnique(t: Tables) {
    && UniqueBy(t.comments, CommentKey)
    && UniqueBy(t.events, EventKey)
    && UniqueBy(t.messages, MessageKey)
    && UniqueBy(t.uploads, UploadKey)
    && UniqueBy(t.matches, MatchKey)
  }

  predicate TablesValid(t: Tables) {
    UsersValid(t.users) && PostsValid(t.posts) && RowKeysUnique(t) && ReferencesResolve(t)
  }

  // ---------------------------------------------------------------------
  // Changes that keep the constraints

  /** Rewriting user rows without touching their ids or emails keeps every
      constraint: this covers every UPDATE the handlers issue on `users`. */
  lemma SameUserKeysValid(t: Tables, users: seq<User>)
    requires TablesValid(t)
    requires |users| == |t.users|
    requires forall i | 0 <= i < |users| :: users[i].id == t.users[i].id && users[i].email == t.users[i].email
    ensures TablesValid(t.(users := users))
  {
    assert UserIds(users) == UserIds(t.users) by {
      forall x ensures x in UserIds(users) <==> x in UserIds(t.users) {
        if x in UserIds(users) {
          var u :| u in users && u.id == x;
          var i :| 0 <= i < |users| && users[i] == u;
          assert t.users[i] in t.users;
        }
        if x in UserIds(t.users) {
          var u :| u in t.users && u.id == x;
          var i :| 0 <= i < |t.users| && t.users[i] == u;
          assert users[i] in users;
        }
      }
    }
  }

  /** The same for post rows that keep their ids, slugs and authors. */
  lemma SamePostKeysValid(t: Tables, posts: seq<Post>)
    requires TablesValid(t)
    requires |posts| == |t.posts|
    requires forall i | 0 <= i < |posts| ::
               posts[i].id == t.posts[i].id && posts[i].slug == t.posts[i].slug && posts[i].authorId == t.posts[i].authorId
    ensures TablesValid(t.(posts := posts))
  {
    assert PostIds(posts) == PostIds(t.posts) by {
      forall x ensures x in PostIds(posts) <==> x in PostIds(t.posts) {
        if x in PostIds(posts) {
          var p :| p in posts && p.id == x;
          var i :| 0 <= i < |posts| && posts[i] == p;
          assert t.posts[i] in t.posts;
        }
        if x in PostIds(t.posts) {
          var p :| p in t.posts && p.id == x;
          var i :| 0 <= i < |t.posts| && t.posts[i] == p;
          assert posts[i] in posts;
        }
      }
    }
    forall i, j | 0 <= i < j < |posts| ensures PostKey(posts[i]) != PostKey(posts[j]) {
      assert PostKey(t.posts[i]) != PostKey(t.posts[j]);
    }
    forall i, j | 0 <= i < j < |posts| ensures PostSlug(posts[i]) != PostSlug(posts[j]) {
      assert PostSlug(t.posts[i]) != PostSlug(t.posts[j]);
    }
  }

  /** Appending a user with a fresh id and an unused lower-case email. */
  lemma InsertUserValid(t: Tables, u: User)
    requires TablesValid(t)
    requires u.id !in UserIds(t.users)
    requires IsLowerCase(u.email)
    requires forall i | 0 <= i < |t.users| :: t.users[i].email != u.email
    ensures TablesValid(t.(users := t.users + [u]))
  {
    var users := t.users + [u];
    assert UserIds(t.users) <= UserIds(users);
    forall i, j | 0 <= i < j < |users| ensures UserKey(users[i]) != UserKey(users[j]) {
      if j == |t.users| {
        assert t.users[i] in t.users;
      }
    }
    forall i, j | 0 <= i < j < |users| ensures UserEmail(users[i]) != UserEmail(users[j]) {
    }
  }

  /** Appending a post with a fresh id, an unused slug and an existing author. */
  lemma InsertPostValid(t: Tables, p: Post)
    requires TablesValid(t)
    requires p.id !in PostIds(t.posts)
    requires p.authorId in UserIds(t.users)
    requires forall i | 0 <= i < |t.posts| :: t.posts[i].slug != p.slug
    ensures TablesValid(t.(posts := t.posts + [p]))
  {
    var posts := t.posts + [p];
    assert PostIds(t.posts) <= PostIds(posts);
    forall i, j | 0 <= i < j < |posts| ensures PostKey(posts[i]) != PostKey(posts[j]) {
      if j == |t.posts| {
        assert t.posts[i] in t.posts;
      }
    }
    forall i, j | 0 <= i < j < |posts| ensures PostSlug(posts[i]) != PostSlug(posts[j]) {
    }
  }

  // ---------------------------------------------------------------------
  // ON DELETE CASCADE

  /** The ids of the posts a user wrote. */
  function PostsBy(posts: seq<Post>, uid: Id): set<Id> {
    set p | p in posts && p.authorId == uid :: p.id
  }

  /** Deleting a user: every row that names the user goes, and so do the
      comments on the posts that go with it. Everything else stays. */
  function DeleteUser(t: Tables, uid: Id): (r: Tables)
    ensures uid !in UserIds(r.users)
    ensures forall i | 0 <= i < |r.users| :: r.users[i] in t.users
    ensures forall i | 0 <= i < |r.posts| :: r.posts[i] in t.posts && r.posts[i].authorId != uid
    ensures forall i | 0 <= i < |r.comments| :: r.comments[i] in t.comments &&
              r.comments[i].userId != uid && r.comments[i].postId !in PostsBy(t.posts, uid)
    ensures forall i | 0 <= i < |r.events| :: r.events[i] in t.events && r.events[i].createdBy != uid
    ensures forall i | 0 <= i < |r.messages| :: r.messages[i] in t.messages && r.messages[i].senderId != uid
    ensures forall i | 0 <= i < |r.uploads| :: r.uploads[i] in t.uploads && r.uploads[i].uploadedBy != uid
    ensures forall i | 0 <= i < |r.matches| :: r.matches[i] in t.matches && r.matches[i].recordedBy != uid
    ensures forall i | 0 <= i < |t.users| :: t.users[i].id != uid ==> t.users[i] in r.users
    ensures forall i | 0 <= i < |t.posts| :: t.posts[i].authorId != uid ==> t.posts[i] in r.posts
    ensures forall i | 0 <= i < |t.comments| ::
              t.comments[i].userId != uid && t.comments[i].postId !in PostsBy(t.posts, uid)
              ==> t.comments[i] in r.comments
    ensures forall i | 0 <= i < |t.events| :: t.events[i].createdBy != uid ==> t.events[i] in r.events
    ensures forall i | 0 <= i < |t.messages| :: t.messages[i].senderId != uid ==> t.messages[i] in r.messages
    ensures forall i | 0 <= i < |t.uploads| :: t.uploads[i].uploadedBy != uid ==> t.uploads[i] in r.uploads
    ensures forall i | 0 <= i < |t.matches| :: t.matches[i].recordedBy != uid ==> t.matches[i] in r.matches
  {
    var gone := PostsBy(t.posts, uid);
    var r := Tables(
      Where(t.users, (u: User) => u.id != uid),
      Where(t.posts, (p: Post) => p.authorId != uid),
      Where(t.comments, (c: Comment) => c.userId != uid && c.postId !in gone),
      Where(t.events, (e: Event) => e.createdBy != uid),
      Where(t.messages, (m: Message) => m.senderId != uid),
      Where(t.uploads, (u: Upload) => u.uploadedBy != uid),
      Where(t.matches, (m: MatchRecord) => m.recordedBy != uid));
    r
  }

  /** Deleting a post takes its comments with it and nothing else. */
  function DeletePost(t: Tables, pid: Id): (r: Tables)
    ensures pid !in PostIds(r.posts)
    ensures forall i | 0 <= i < |r.comments| :: r.comments[i].postId != pid
    ensures forall i | 0 <= i < |t.posts| :: t.posts[i].id != pid ==> t.posts[i] in r.posts
    ensures forall i | 0 <= i < |t.comments| :: t.comments[i].postId != pid ==> t.comments[i] in r.comments
    ensures r.users == t.users && r.events == t.events && r.messages == t.messages
    ensures r.uploads == t.uploads && r.matches == t.matches
  {
    var r := t.(posts := Where(t.posts, (p: Post) => p.id != pid),
                 comments := Where(t.comments, (c: Comment) => c.postId != pid));
    r
  }

  /** A row kept by a deletion still finds the user it names. */
  lemma KeptUserResolves(t: Tables, uid: Id, x: Id)
    requires x in UserIds(t.users) && x != uid
    ensures x in UserIds(DeleteUser(t, uid).users)
  {
    var u :| u in t.users && u.id == x;
    var i :| 0 <= i < |t.users| && t.users[i] == u;
    assert t.users[i] in DeleteUser(t, uid).users;
  }

  /** After a user deletion the surviving posts and comments still name existing users. */
  lemma DeleteUserUserRefs1(t: Tables, uid: Id)
    requires ReferencesResolve(t)
    ensures var r := DeleteUser(t, uid);
      (forall i | 0 <= i < |r.posts| :: r.posts[i].authorId in UserIds(r.users))
      && (forall i | 0 <= i < |r.comments| :: r.comments[i].userId in UserIds(r.users))
  {
    var r := DeleteUser(t, uid);
    forall i | 0 <= i < |r.posts| ensures r.posts[i].authorId in UserIds(r.users) {
      var k :| 0 <= k < |t.posts| && t.posts[k] == r.posts[i];
      KeptUserResolves(t, uid, r.posts[i].authorId);
    }
    forall i | 0 <= i < |r.comments| ensures r.comments[i].userId in UserIds(r.users) {
      var k :| 0 <= k < |t.comments| && t.comments[k] == r.comments[i];
      KeptUserResolves(t, uid, r.comments[i].userId);
    }
  }

  /** After a user deletion the surviving events and messages still name existing users. */
  lemma DeleteUserUserRefs2(t: Tables, uid: Id)
    requires ReferencesResolve(t)
    ensures var r := DeleteUser(t, uid);
      (forall i | 0 <= i < |r.events| :: r.events[i].createdBy in UserIds(r.users))
      && (forall i | 0 <= i < |r.messages| :: r.messages[i].senderId in UserIds(r.users))
  {
    var r := DeleteUser(t, uid);
    forall i | 0 <= i < |r.events| ensures r.events[i].createdBy in UserIds(r.users) {
      var k :| 0 <= k < |t.events| && t.events[k] == r.events[i];
      KeptUserResolves(t, uid, r.events[i].createdBy);
    }
    forall i | 0 <= i < |r.messages| ensures r.messages[i].senderId in UserIds(r.users) {
      var k :| 0 <= k < |t.messages| && t.messages[k] == r.messages[i];
      KeptUserResolves(t, uid, r.messages[i].senderId);
    }
  }

  /** After a user deletion the surviving uploads and matches still name existing users. */
  lemma DeleteUserUserRefs3(t: Tables, uid: Id)
    requires ReferencesResolve(t)
    ensures var r := DeleteUser(t, uid);
      (forall i | 0 <= i < |r.uploads| :: r.uploads[i].uploadedBy in UserIds(r.users))
      && (forall i | 0 <= i < |r.matches| :: r.matches[i].recordedBy in UserIds(r.users))
  {
    var r := DeleteUser(t, uid);
    forall i | 0 <= i < |r.uploads| ensures r.uploads[i].uploadedBy in UserIds(r.users) {
      var k :| 0 <= k < |t.uploads| && t.uploads[k] == r.uploads[i];
      KeptUserResolves(t, uid, r.uploads[i].uploadedBy);
    }
    forall i | 0 <= i < |r.matches| ensures r.matches[i].recordedBy in UserIds(r.users) {
      var k :| 0 <= k < |t.matches| && t.matches[k] == r.matches[i];
      KeptUserResolves(t, uid, r.matches[i].recordedBy);
    }
  }

  /** After a user deletion every surviving comment's post survives too. */
  lemma DeleteUserPostRefs(t: Tables, uid: Id)
    requires ReferencesResolve(t)
    ensures var r := DeleteUser(t, uid);
      forall i | 0 <= i < |r.comments| :: r.comments[i].postId in PostIds(r.posts)
  {
    var r := DeleteUser(t, uid);
    forall i | 0 <= i < |r.comments| ensures r.comments[i].postId in PostIds(r.posts) {
      var c := r.comments[i];
      var k :| 0 <= k < |t.comments| && t.comments[k] == c;
      var p :| p in t.posts && p.id == c.postId;
      assert p.authorId != uid;
      var m :| 0 <= m < |t.posts| && t.posts[m] == p;
      assert p in r.posts;
    }
  }

  /** Cascading a user deletion leaves a database that satisfies every
      constraint. */
  lemma DeleteUserValid(t: Tables, uid: Id)
    requires TablesValid(t)
    ensures TablesValid(DeleteUser(t, uid))
  {
    var r := DeleteUser(t, uid);
    WhereKeepsUnique(t.users, (u: User) => u.id != uid, UserKey);
    WhereKeepsUnique(t.users, (u: User) => u.id != uid, UserEmail);
    WhereKeepsUnique(t.posts, (p: Post) => p.authorId != uid, PostKey);
    WhereKeepsUnique(t.posts, (p: Post) => p.authorId != uid, PostSlug);
    WhereKeepsUnique(t.comments, (c: Comment) => c.userId != uid && c.postId !in PostsBy(t.posts, uid), CommentKey);
    WhereKeepsUnique(t.events, (e: Event) => e.createdBy != uid, EventKey);
    WhereKeepsUnique(t.messages, (m: Message) => m.senderId != uid, MessageKey);
    WhereKeepsUnique(t.uploads, (u: Upload) => u.uploadedBy != uid, UploadKey);
    WhereKeepsUnique(t.matches, (m: MatchRecord) => m.recordedBy != uid, MatchKey);
    forall i | 0 <= i < |r.users| ensures IsLowerCase(r.users[i].email) {
      var k :| 0 <= k < |t.users| && t.users[k] == r.users[i];
    }
    DeleteUserUserRefs1(t, uid);
    DeleteUserUserRefs2(t, uid);
    DeleteUserUserRefs3(t, uid);
    DeleteUserPostRefs(t, uid);
  }

  /** Cascading a post deletion leaves a database that satisfies every
      constraint. */
  lemma DeletePostValid(t: Tables, pid: Id)
    requires TablesValid(t)
    ensures TablesValid(DeletePost(t, pid))
  {
    var r := DeletePost(t, pid);
    WhereKeepsUnique(t.posts, (p: Post) => p.id != pid, PostKey);
    WhereKeepsUnique(t.posts, (p: Post) => p.id != pid, PostSlug);
    WhereKeepsUnique(t.comments, (c: Comment) => c.postId != pid, CommentKey);
    forall i | 0 <= i < |r.posts| ensures r.posts[i].authorId in UserIds(r.users) {
      var k :| 0 <= k < |t.posts| && t.posts[k] == r.posts[i];
    }
    forall i | 0 <= i < |r.comments| ensures r.comments[i].postId in PostIds(r.posts) {
      var c := r.comments[i];
      var k :| 0 <= k < |t.comments| && t.comments[k] == c;
      var p :| p in t.posts && p.id == c.postId;
      var m :| 0 <= m < |t.posts| && t.posts[m] == p;
      assert p in r.posts;
    }
    forall i | 0 <= i < |r.comments| ensures r.comments[i].userId in UserIds(r.users) {
      var k :| 0 <= k < |t.comments| && t.comments[k] == r.comments[i];
    }
  }
}
