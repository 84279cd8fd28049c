/** `/api/events`: the upcoming events, soonest first, and creating an event
    owned by the signed-in member. */
module Events {
  import opened Common
  import opened Http
  import opened Seqs
  import opened Schema
  import opened ApiUtils
  import opened Store

  /** `startTime` and `endTime` arrive as date strings; the model receives
      them already read as timestamps, `None` standing for an absent or empty
      field. */
  datatype Request = Request(
    title: Option<string>,
    description: Option<string>,
    startTime: Option<Time>,
    endTime: Option<Time>,
    eventType: Option<string>,
    isPublic: Option<bool>)

  datatype Body = Many(events: seq<Event>) | One(event: Event)

  const MissingMsg: string := "Missing required fields"

  predicate Upcoming(now: Time, e: Event) { e.startTime >= now }

  /** Sort key for `ORDER BY start_time`. */
  function SoonestFirst(e: Event): int { e.startTime }

  /** `WHERE start_time >= now ORDER BY start_time`: exactly the events that
      have not started before `now`, public or not, soonest first. */
  function Listing(events: seq<Event>, now: Time): (r: seq<Event>)
    ensures multiset(r) == multiset(Where(events, e => Upcoming(now, e)))
    ensures forall e :: e in r <==> e in events && e.startTime >= now
    ensures forall i, j | 0 <= i < j < |r| :: r[i].startTime <= r[j].startTime
  {
    var upcoming := Where(events, e => Upcoming(now, e));
    var r := SortBy(upcoming, SoonestFirst);
    forall e ensures e in r <==> e in events && e.startTime >= now {
      SortByMembers(upcoming, SoonestFirst, e);
      if e in events && e.startTime >= now {
        var i :| 0 <= i < |events| && events[i] == e;
      }
    }
    forall i, j | 0 <= i < j < |r| ensures r[i].startTime <= r[j].startTime {
      assert SoonestFirst(r[i]) <= SoonestFirst(r[j]);
    }
    r
  }

  /** `isPublic ?? true`: only a missing value becomes true; an explicit
      false stays false. */
  function PublicFlag(v: Option<bool>): (b: bool)
    ensures b <==> v != Some(false)
  {
    if v.Some? then v.value else true
  }

  predicate Complete(req: Request) {
    Truthy(req.title) && req.startTime.Some? && req.endTime.Some? && Truthy(req.eventType)
  }

  function Handle(t: Tables, m: Method, header: Option<string>, provider: Provider, req: Request,
                  newId: Id, now: Time): (s: Step<Body>)
    ensures m != GET && m != POST ==> s == Step(t, Failure(StatusMethodNotAllowed, MethodNotAllowedMsg))
    ensures m == GET ==> s == Step(t, Success(StatusOk, Many(Listing(t.events, now))))
    ensures m == POST && Authenticate(header, provider).Err?
            ==> s == Step(t, Failure(StatusUnauthorized, UnauthorizedMsg))
    ensures m == POST && Authenticate(header, provider).Ok? && !Complete(req)
            ==> s == Step(t, Failure(StatusBadRequest, MissingMsg))
    ensures m == POST && Authenticate(header, provider).Ok? && Complete(req) ==>
              (s.tables != t <==> Authenticate(header, provider).value.id in UserIds(t.users))
    ensures m == POST && Authenticate(header, provider).Ok? && Complete(req)
            && Authenticate(header, provider).value.id !in UserIds(t.users)
            ==> s == Step(t, Failure(StatusServerError, ServerErrorMsg))
    ensures m == POST && s.tables != t ==>
              && Complete(req) && |s.tables.events| == |t.events| + 1
              && var e := s.tables.events[|t.events|];
              && s.tables == t.(events := t.events + [e])
              && s.reply == Success(StatusCreated, One(e))
              && e.id == newId && e.createdBy == Authenticate(header, provider).value.id
              && e.title == req.title.value && e.description == req.description
              && e.startTime == req.startTime.value && e.endTime == req.endTime.value
              && e.eventType == req.eventType.value
              && (e.isPublic <==> req.isPublic != Some(false))
    ensures m == POST && s.reply.Success? ==> s.tables != t
  {
    if m == GET then Step(t, Success(StatusOk, Many(Listing(t.events, now))))
    else if m == POST then
      match Authenticate(header, provider)
      case Err(_) => Step(t, Failure(StatusUnauthorized, UnauthorizedMsg))
      case Ok(user) =>
        if !Complete(req) then Step(t, Failure(StatusBadRequest, MissingMsg))
        else if user.id !in UserIds(t.users) then Step(t, Failure(StatusServerError, ServerErrorMsg))
        else
          var e := NewEvent(newId, req.title.value, req.description, req.startTime.value, req.endTime.value,
                            user.id, req.eventType.value, Some(PublicFlag(req.isPublic)), now);
          Step(t.(events := t.events + [e]), Success(StatusCreated, One(e)))
    else Step(t, Failure(StatusMethodNotAllowed, MethodNotAllowedMsg))
  }

  /** An event created now with a start time still ahead is in the listing
      read at any moment up to its start, whatever the order of its times:
      nothing checks that it ends after it starts. */
  lemma CreatedEventListed(t: Tables, header: Option<string>, provider: Provider, req: Request,
                           newId: Id, now: Time, later: Time)
    requires Handle(t, POST, header, provider, req, newId, now).reply.Success?
    requires later <= req.startTime.value
    ensures var s := Handle(t, POST, header, provider, req, newId, now);
            s.reply.value.event in Listing(s.tables.events, later)
  {
    var s := Handle(t, POST, header, provider, req, newId, now);
    assert s.tables.events[|t.events|] in s.tables.events;
  }

  lemma HandleKeepsValid(t: Tables, m: Method, header: Option<string>, provider: Provider, req: Request,
                         newId: Id, now: Time)
    requires TablesValid(t) && newId !in EventIds(t.events)
    ensures TablesValid(Handle(t, m, header, provider, req, newId, now).tables)
  {
    var s := Handle(t, m, header, provider, req, newId, now);
    if s.tables != t {
      forall i | 0 <= i < |t.events| ensures EventKey(t.events[i]) != newId {
        assert t.events[i] in t.events;
      }
      AppendKeepsUnique(t.events, s.tables.events[|t.events|], EventKey);
    }
  }

  method HandleOn(db: Db, m: Method, header: Option<string>, provider: Provider, req: Request, now: Time)
    returns (reply: Reply<Body>)
    requires db.Valid()
    modifies db
    ensures db.Valid()
    ensures var s := Handle(old(db.State()), m, header, provider, req, old(db.nextId), now);
            db.State() == s.tables && reply == s.reply
  {
    if m == GET {
      return Success(StatusOk, Many(Listing(db.events, now)));
    }
    if m != POST {
      return Failure(StatusMethodNotAllowed, MethodNotAllowedMsg);
    }
    var auth := Authenticate(header, provider);
    if auth.Err? {
      return Failure(StatusUnauthorized, UnauthorizedMsg);
    }
    if !Complete(req) {
      return Failure(StatusBadRequest, MissingMsg);
    }
    if auth.value.id !in UserIds(db.users) {
      return Failure(StatusServerError, ServerErrorMsg);
    }
    var e := NewEvent(db.nextId, req.title.value, req.description, req.startTime.value, req.endTime.value,
                      auth.value.id, req.eventType.value, Some(PublicFlag(req.isPublic)), now);
    db.events := db.events + [e];
    db.nextId := db.nextId + 1;
    return Success(StatusCreated, One(e));
  }
}
