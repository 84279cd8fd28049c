/** `/api/matches`: the match records, latest match first, and recording a
    match. Falsy optional fields are stored as null, a score of 0 among
    them. */
module Matches {
  import opened Common
  import opened Http
  import opened Seqs
  import opened Schema
  import opened ApiUtils
  import opened Store

  /** `matchDate` arrives as a date string; the model receives it already
      read as a timestamp. Scores are JSON numbers. */
  datatype Request = Request(
    opponent: Option<string>,
    matchDate: Option<Time>,
    matchResult: Option<string>,
    ourScore: Option<int>,
    opponentScore: Option<int>,
    notes: Option<string>)

  datatype Body = Many(matches: seq<MatchRecord>) | One(record: MatchRecord)

  const RequiredMsg: string := "Opponent and match date are required"

  /** Sort key for `ORDER BY match_date DESC`. */
  function LatestFirst(r: MatchRecord): int { -r.matchDate }

  /** Every match record, latest match first. */
  function Listing(matches: seq<MatchRecord>): (r: seq<MatchRecord>)
    ensures multiset(r) == multiset(matches)
    ensures forall i, j | 0 <= i < j < |r| :: r[i].matchDate >= r[j].matchDate
  {
    var r := SortBy(matches, LatestFirst);
    forall i, j | 0 <= i < j < |r| ensures r[i].matchDate >= r[j].matchDate {
      assert LatestFirst(r[i]) <= LatestFirst(r[j]);
    }
    r
  }

  predicate Complete(req: Request) {
    Truthy(req.opponent) && req.matchDate.Some?
  }

  /** The row a complete request inserts: `field || null` on the four
      optional fields, no result derived from the scores. */
  function Record(req: Request, id: Id, recordedBy: Id, now: Time): (r: MatchRecord)
    requires Complete(req)
    ensures r.opponent == req.opponent.value && r.matchDate == req.matchDate.value
    ensures r.matchResult == OrNull(req.matchResult) && r.notes == OrNull(req.notes)
    ensures r.ourScore == NumberOrNull(req.ourScore) && r.opponentScore == NumberOrNull(req.opponentScore)
    ensures r.id == id && r.recordedBy == recordedBy && r.createdAt == now
  {
    NewMatch(id, req.opponent.value, req.matchDate.value, OrNull(req.matchResult), NumberOrNull(req.ourScore),
             NumberOrNull(req.opponentScore), OrNull(req.notes), recordedBy, now)
  }

  /** A score of 0 is falsy, so it is stored as null, the same as no score;
      an empty result or note is stored as null too. */
  lemma ZeroScoreStoredAsNull(req: Request, id: Id, recordedBy: Id, now: Time)
    requires Complete(req)
    requires req.ourScore == Some(0) && req.matchResult == Some("")
    ensures Record(req, id, recordedBy, now).ourScore == Record(req.(ourScore := None), id, recordedBy, now).ourScore
    ensures Record(req, id, recordedBy, now).ourScore.None? && Record(req, id, recordedBy, now).matchResult.None?
  {
  }

  function Handle(t: Tables, m: Method, header: Option<string>, provider: Provider, req: Request,
                  newId: Id, now: Time): (s: Step<Body>)
    ensures m != GET && m != POST ==> s == Step(t, Failure(StatusMethodNotAllowed, MethodNotAllowedMsg))
    ensures m == GET ==> s == Step(t, Success(StatusOk, Many(Listing(t.matches))))
    ensures m == POST && Authenticate(header, provider).Err?
            ==> s == Step(t, Failure(StatusUnauthorized, UnauthorizedMsg))
    ensures m == POST && Authenticate(header, provider).Ok? && !Complete(req)
            ==> s == Step(t, Failure(StatusBadRequest, RequiredMsg))
    ensures m == POST && Authenticate(header, provider).Ok? && Complete(req) ==>
              (s.tables != t <==> Authenticate(header, provider).value.id in UserIds(t.users))
    ensures m == POST && Authenticate(header, provider).Ok? && Complete(req)
            && Authenticate(header, provider).value.id !in UserIds(t.users)
            ==> s == Step(t, Failure(StatusServerError, ServerErrorMsg))
    ensures m == POST && s.tables != t ==>
              && Complete(req)
              && var r := Record(req, newId, Authenticate(header, provider).value.id, now);
              && s.tables == t.(matches := t.matches + [r])
              && s.reply == Success(StatusCreated, One(r))
    ensures m == POST && s.reply.Success? ==> s.tables != t
  {
    if m == GET then Step(t, Success(StatusOk, Many(Listing(t.matches))))
    else if m == POST then
      match Authenticate(header, provider)
      case Err(_) => Step(t, Failure(StatusUnauthorized, UnauthorizedMsg))
      case Ok(user) =>
        if !Complete(req) then Step(t, Failure(StatusBadRequest, RequiredMsg))
        else if user.id !in UserIds(t.users) then Step(t, Failure(StatusServerError, ServerErrorMsg))
        else
          var r := Record(req, newId, user.id, now);
          Step(t.(matches := t.matches + [r]), Success(StatusCreated, One(r)))
    else Step(t, Failure(StatusMethodNotAllowed, MethodNotAllowedMsg))
  }

  lemma HandleKeepsValid(t: Tables, m: Method, header: Option<string>, provider: Provider, req: Request,
                         newId: Id, now: Time)
    requires TablesValid(t) && newId !in MatchIds(t.matches)
    ensures TablesValid(Handle(t, m, header, provider, req, newId, now).tables)
  {
    var s := Handle(t, m, header, provider, req, newId, now);
    if s.tables != t {
      forall i | 0 <= i < |t.matches| ensures MatchKey(t.matches[i]) != newId {
        assert t.matches[i] in t.matches;
      }
      AppendKeepsUnique(t.matches, s.tables.matches[|t.matches|], MatchKey);
    }
  }

  method HandleOn(db: Db, m: Method, header: Option<string>, provider: Provider, req: Request, now: Time)
    returns (reply: Reply<Body>)
    requires db.Valid()
    modifies db
    ensures db.Valid()
    ensures var s := Handle(old(db.State()), m, header, provider, req, old(db.nextId), now);
            db.State() == s.tables && reply == s.reply
  {
    if m == GET {
      return Success(StatusOk, Many(Listing(db.matches)));
    }
    if m != POST {
      return Failure(StatusMethodNotAllowed, MethodNotAllowedMsg);
    }
    var auth := Authenticate(header, provider);
    if auth.Err? {
      return Failure(StatusUnauthorized, UnauthorizedMsg);
    }
    if !Complete(req) {
      return Failure(StatusBadRequest, RequiredMsg);
    }
    if auth.value.id !in UserIds(db.users) {
      return Failure(StatusServerError, ServerErrorMsg);
    }
    var r := Record(req, db.nextId, auth.value.id, now);
    db.matches := db.matches + [r];
    db.nextId := db.nextId + 1;
    return Success(StatusCreated, One(r));
  }
}
