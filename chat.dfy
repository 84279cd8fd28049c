/** The chat behind `api/socket.js`: the one-time set-up of the socket
    server, the handshake that authenticates a connection, the welcome
    notice, the history window and the `send_message` store. What the socket
    emits is returned as a list of deliveries; who actually receives a room
    broadcast is the socket library's business and is not modelled. */
module Chat {
  import opened Common
  import opened Text
  import opened Seqs
  import opened Schema
  import opened ApiUtils
  import opened Store

  const SocketPath: string := "/api/socket"
  const MainRoom: string := "main"
  const HistoryLimit: nat := 50

  const MissingTokenMsg: string := "Authentication token is missing"
  const AuthFailedMsg: string := "Authentication failed"
  const WelcomeText: string := "Selamat datang di chat Frost Warlord!"
  const SendFailedMsg: string := "Failed to send message"

  /** The `content` field of a `send_message` payload, as whatever JSON value
      the client put there. */
  datatype JsValue = JsString(s: string) | JsNumber(n: int) | JsBool(b: bool) | JsNull | JsUndefined | JsObject

  /** A `send_message` payload: no payload at all, or an object with a
      `content` field (`JsUndefined` when the field is absent). */
  datatype Payload = NoPayload | Payload(content: JsValue)

  datatype Outgoing =
    | Notice(noticeId: string, text: string, from: string, sentAt: Time)
    | History(messages: seq<Message>)
    | Broadcast(id: Id, content: string, sender: AuthUser, createdAt: Time)
    | SendError(message: string)

  /** `socket.emit` reaches the one connection; `io.to(room).emit` every
      connection in the room. */
  datatype Delivery = ToSocket(event: Outgoing) | ToRoom(room: string, event: Outgoing)

  /** The socket server options. */
  datatype IoServer = IoServer(path: string, addTrailingSlash: bool)

  /** The HTTP server the handler is attached to: it remembers the socket
      server once one is made. */
  class HttpServer {
    var io: Option<IoServer>

    constructor ()
      ensures io.None?
    {
      io := None;
    }

    /** `SocketHandler`: a second call finds the socket server in place and
        leaves it alone. */
    method Attach()
      modifies this
      ensures old(io).Some? ==> io == old(io)
      ensures old(io).None? ==> io == Some(IoServer(SocketPath, false))
    {
      if io.Some? {
        return;
      }
      io := Some(IoServer(SocketPath, false));
    }
  }

  /** The handshake: an absent or empty token is refused outright; otherwise
      the token goes to `authenticateUser` as `Bearer <token>` and any
      failure there is reported as one message. */
  function Handshake(token: Option<string>, provider: Provider): (r: Result<AuthUser>)
    ensures !Truthy(token) ==> r == Err(MissingTokenMsg)
    ensures r.Err? ==> r.error == MissingTokenMsg || r.error == AuthFailedMsg
    ensures r.Ok? ==> Truthy(token) && Authenticate(Some("Bearer " + token.value), provider) == Ok(r.value)
    ensures Truthy(token) && Authenticate(Some("Bearer " + token.value), provider).Err? ==> r == Err(AuthFailedMsg)
    ensures Truthy(token) && Authenticate(Some("Bearer " + token.value), provider).Ok? ==> r.Ok?
  {
    if !Truthy(token) then Err(MissingTokenMsg)
    else
      match Authenticate(Some("Bearer " + token.value), provider)
      case Ok(u) => Ok(u)
      case Err(_) => Err(AuthFailedMsg)
  }

  /** A token without spaces reaches the provider unchanged: the handshake
      succeeds exactly when the provider accepts that token. */
  lemma HandshakeAsksProvider(token: string, provider: Provider)
    requires token != "" && ' ' !in token
    ensures Handshake(Some(token), provider).Ok? <==> provider(Some(token)).Authenticated?
    ensures Handshake(Some(token), provider).Ok? ==> Handshake(Some(token), provider).value == provider(Some(token)).user
  {
    BearerTokenOf("Bearer", token);
    assert "Bearer" + " " + token == "Bearer " + token;
  }

  /** `!content || typeof content !== 'string' || content.trim() === ''`
      fails: the content is a string with a character other than white
      space. */
  predicate Sendable(content: JsValue) {
    content.JsString? && !IsBlank(content.s)
  }

  /** What one `send_message` does: the new messages table and the
      deliveries. */
  datatype Sent = Sent(tables: Tables, out: seq<Delivery>)

  /** `send_message` from `user`. Unsendable content is dropped without a
      word. A missing payload, or a sender row that no longer exists (the
      INSERT breaks its foreign key), is answered with an error to the sender
      alone. Otherwise one message is stored, content untrimmed, and
      broadcast to the room. */
  function Send(t: Tables, user: AuthUser, payload: Payload, newId: Id, now: Time): (r: Sent)
    ensures payload.Payload? && !Sendable(payload.content) ==> r == Sent(t, [])
    ensures payload.NoPayload? || (Sendable(payload.content) && user.id !in UserIds(t.users))
            ==> r == Sent(t, [ToSocket(SendError(SendFailedMsg))])
    ensures r.tables != t <==> payload.Payload? && Sendable(payload.content) && user.id in UserIds(t.users)
    ensures r.tables != t ==>
              && var m := NewMessage(newId, payload.content.s, user.id, now);
              && r.tables == t.(messages := t.messages + [m])
              && r.out == [ToRoom(MainRoom, Broadcast(m.id, m.content, user, m.createdAt))]
    ensures r.tables == t ==> forall d | d in r.out :: d.ToSocket?
  {
    match payload
    case NoPayload => Sent(t, [ToSocket(SendError(SendFailedMsg))])
    case Payload(content) =>
      if !Sendable(content) then Sent(t, [])
      else if user.id !in UserIds(t.users) then Sent(t, [ToSocket(SendError(SendFailedMsg))])
      else
        var m := NewMessage(newId, content.s, user.id, now);
        Sent(t.(messages := t.messages + [m]), [ToRoom(MainRoom, Broadcast(m.id, m.content, user, m.createdAt))])
  }

  /** White space around the content is kept; white space alone is dropped. */
  lemma ContentStoredUntrimmed(t: Tables, user: AuthUser, s: string, newId: Id, now: Time)
    requires user.id in UserIds(t.users) && !IsBlank(s)
    ensures Send(t, user, Payload(JsString(" " + s)), newId, now).tables.messages
            == t.messages + [NewMessage(newId, " " + s, user.id, now)]
    ensures Send(t, user, Payload(JsString(" ")), newId, now) == Sent(t, [])
  {
    assert !IsBlank(" " + s) by {
      var i :| 0 <= i < |s| && !IsJsWhitespace(s[i]);
      assert (" " + s)[i + 1] == s[i];
    }
    assert IsBlank(" ") by {
      assert IsJsWhitespace(" "[0]);
    }
  }

  lemma SendKeepsValid(t: Tables, user: AuthUser, payload: Payload, newId: Id, now: Time)
    requires TablesValid(t) && newId !in MessageIds(t.messages)
    ensures TablesValid(Send(t, user, payload, newId, now).tables)
  {
    var r := Send(t, user, payload, newId, now);
    if r.tables != t {
      forall i | 0 <= i < |t.messages| ensures MessageKey(t.messages[i]) != newId {
        assert t.messages[i] in t.messages;
      }
      AppendKeepsUnique(t.messages, r.tables.messages[|t.messages|], MessageKey);
    }
  }

  /** Sort key for `ORDER BY created_at`. */
  function SentAt(m: Message): int { m.createdAt }

  /** `ORDER BY created_at LIMIT 50`: the history window holds the oldest
      fifty messages, oldest first (not the latest fifty). */
  function HistoryWindow(messages: seq<Message>): (r: seq<Message>)
    ensures |r| == if |messages| < HistoryLimit then |messages| else HistoryLimit
    ensures forall i, j | 0 <= i < j < |r| :: r[i].createdAt <= r[j].createdAt
    ensures multiset(r) <= multiset(messages)
  {
    var sorted := SortBy(messages, SentAt);
    var n := if |messages| < HistoryLimit then |messages| else HistoryLimit;
    SortedPrefixSmallest(messages, SentAt, n);
    forall i, j | 0 <= i < j < n ensures sorted[i].createdAt <= sorted[j].createdAt {
      assert SentAt(sorted[i]) <= SentAt(sorted[j]);
    }
    sorted[..n]
  }

  /** Every message left out of the window is at least as new as every
      message in it. */
  lemma WindowHoldsOldest(messages: seq<Message>, m: Message)
    requires m in messages && m !in HistoryWindow(messages)
    ensures forall i | 0 <= i < |HistoryWindow(messages)| :: HistoryWindow(messages)[i].createdAt <= m.createdAt
  {
    var sorted := SortBy(messages, SentAt);
    var n := |HistoryWindow(messages)|;
    SortedPrefixSmallest(messages, SentAt, n);
    assert m in multiset(sorted[..n]) + multiset(sorted[n..]);
    assert m !in sorted[..n];
    var j :| n <= j < |sorted| && sorted[j] == m;
    forall i | 0 <= i < n ensures sorted[i].createdAt <= m.createdAt {
      assert SentAt(sorted[i]) <= SentAt(sorted[j]);
    }
  }

  /** One connection: the user the handshake attached and the rooms it has
      joined. */
  class Connection {
    var user: Option<AuthUser>
    var rooms: set<string>

    constructor ()
      ensures user.None? && rooms == {}
    {
      user := None;
      rooms := {};
    }

    /** The middleware: on success `socket.user` is set; on failure the
        connection is refused with the handshake's message. */
    method Authenticate(token: Option<string>, provider: Provider) returns (refused: Option<string>)
      modifies this
      ensures var h := Handshake(token, provider);
              && (h.Ok? ==> refused.None? && user == Some(h.value))
              && (h.Err? ==> refused == Some(h.error) && user == old(user))
      ensures rooms == old(rooms)
    {
      var h := Handshake(token, provider);
      if h.Err? {
        return Some(h.error);
      }
      user := Some(h.value);
      return None;
    }

    /** `connection`: join the main room and greet this socket alone, once. */
    method Connect(now: Time) returns (out: seq<Delivery>)
      requires user.Some?
      modifies this
      ensures rooms == old(rooms) + {MainRoom} && user == old(user)
      ensures out == [ToSocket(Notice("system", WelcomeText, "System", now))]
    {
      rooms := rooms + {MainRoom};
      out := [ToSocket(Notice("system", WelcomeText, "System", now))];
    }

    /** `load_messages`: the history window, to this socket only. */
    method LoadMessages(db: Db) returns (out: seq<Delivery>)
      ensures out == [ToSocket(History(HistoryWindow(db.messages)))]
    {
      out := [ToSocket(History(HistoryWindow(db.messages)))];
    }

    /** `send_message` against the database. */
    method SendMessage(db: Db, payload: Payload, now: Time) returns (out: seq<Delivery>)
      requires user.Some? && db.Valid()
      modifies db
      ensures db.Valid()
      ensures var r := Send(old(db.State()), user.value, payload, old(db.nextId), now);
              db.State() == r.tables && out == r.out
    {
      var u := user.value;
      if payload.NoPayload? {
        return [ToSocket(SendError(SendFailedMsg))];
      }
      if !Sendable(payload.content) {
        return [];
      }
      if u.id !in UserIds(db.users) {
        return [ToSocket(SendError(SendFailedMsg))];
      }
      var m := NewMessage(db.nextId, payload.content.s, u.id, now);
      db.messages := db.messages + [m];
      db.nextId := db.nextId + 1;
      out := [ToRoom(MainRoom, Broadcast(m.id, m.content, u, m.createdAt))];
    }
  }
}
