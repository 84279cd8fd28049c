/** The match page: recording a match (the scores typed in, the result
    derived from them) and the list of matches grouped by year and month.
    Calendar arithmetic on timestamps (`getFullYear`, `getMonth`) is given as
    a `Calendar`. */
module MatchesPage {
  import opened Common
  import opened Text
  import opened Seqs
  import opened Schema
  import Matches
  import opened Submission

  const SaveFailedMsg: string := "Gagal menyimpan data pertandingan. Silakan coba lagi nanti."
  const OpponentRequiredMsg: string := "Nama lawan wajib diisi"
  const DateRequiredMsg: string := "Tanggal pertandingan wajib diisi"

  // ---------------------------------------------------------------------
  // Recording a match

  /** The form as typed: the date picker's value read as a timestamp
      (`None` while the picker is empty; a date input holds nothing or a
      valid date), the two number inputs as the text they hold. */
  datatype Form = Form(opponent: string, matchDate: Option<Time>, ourScore: string, opponentScore: string, notes: string)

  /** The message under each field, `None` when its rule passes. */
  datatype Errors = Errors(opponent: Option<string>, matchDate: Option<string>)

  /** The two `required` rules: the opponent's name and the date. The score
      and notes fields have no rule. */
  function Check(form: Form): (e: Errors)
    ensures e.opponent.None? <==> form.opponent != ""
    ensures e.opponent.Some? ==> e.opponent.value == OpponentRequiredMsg
    ensures e.matchDate.None? <==> form.matchDate.Some?
    ensures e.matchDate.Some? ==> e.matchDate.value == DateRequiredMsg
  {
    Errors(if form.opponent == "" then Some(OpponentRequiredMsg) else None,
           if form.matchDate.None? then Some(DateRequiredMsg) else None)
  }

  predicate Accepted(form: Form) {
    Check(form) == Errors(None, None)
  }

  /** The object posted. `matchResult` is `None` when the property is not
      set at all. */
  datatype Payload = Payload(
    opponent: string,
    matchDate: Time,
    ourScore: Option<JsNumber>,
    opponentScore: Option<JsNumber>,
    notes: string,
    matchResult: Option<string>)

  /** `raw ? parseInt(raw, 10) : null`. */
  function ScoreInput(raw: string): Option<JsNumber> {
    if raw == "" then None else Some(ParseInt(raw))
  }

  /** JavaScript's `>` on numbers: false whenever NaN is involved. */
  predicate JsGreater(a: JsNumber, b: JsNumber) {
    a.Finite? && b.Finite? && a.n > b.n
  }

  /** The result of two scores that are not null. A NaN score compares
      neither greater nor smaller, so it gives a draw. */
  function DerivedResult(ours: JsNumber, theirs: JsNumber): (r: string)
    ensures r == "win" <==> ours.Finite? && theirs.Finite? && ours.n > theirs.n
    ensures r == "loss" <==> ours.Finite? && theirs.Finite? && ours.n < theirs.n
    ensures r == "draw" <==> !(ours.Finite? && theirs.Finite?) || ours.n == theirs.n
  {
    if JsGreater(ours, theirs) then "win"
    else if JsGreater(theirs, ours) then "loss"
    else "draw"
  }

  /** `matchData`: the form with the scores parsed, and a result only when
      both score fields hold something. */
  function Prepare(form: Form): (p: Payload)
    requires form.matchDate.Some?
    ensures p.opponent == form.opponent && p.matchDate == form.matchDate.value && p.notes == form.notes
    ensures p.ourScore.None? <==> form.ourScore == ""
    ensures p.opponentScore.None? <==> form.opponentScore == ""
    ensures p.matchResult.Some? <==> form.ourScore != "" && form.opponentScore != ""
    ensures p.matchResult.Some? ==> p.matchResult.value == DerivedResult(ParseInt(form.ourScore), ParseInt(form.opponentScore))
  {
    var ours := ScoreInput(form.ourScore);
    var theirs := ScoreInput(form.opponentScore);
    var result := if ours.Some? && theirs.Some? then Some(DerivedResult(ours.value, theirs.value)) else None;
    Payload(form.opponent, form.matchDate.value, ours, theirs, form.notes, result)
  }

  /** `JSON.stringify` writes NaN as `null`. */
  function JsonNumber(v: Option<JsNumber>): (r: Option<int>)
    ensures r.Some? <==> v.Some? && v.value.Finite?
  {
    if v.Some? && v.value.Finite? then Some(v.value.n) else None
  }

  /** The request the server reads from the posted JSON. */
  function Wire(p: Payload): Matches.Request {
    Matches.Request(Some(p.opponent), Some(p.matchDate), p.matchResult, JsonNumber(p.ourScore),
                    JsonNumber(p.opponentScore), Some(p.notes))
  }

  /** A score typed as a number is read back as that number. */
  lemma ScoreRoundTrip(n: int)
    ensures ScoreInput(ShowInt(n)) == Some(Finite(n))
  {
    ParseShowInt(n, []);
    assert ShowInt(n) + [] == ShowInt(n);
  }

  /** Two typed scores give the result their comparison says. */
  lemma ScoresDecideResult(form: Form, ours: int, theirs: int)
    requires form.matchDate.Some?
    requires form.ourScore == ShowInt(ours) && form.opponentScore == ShowInt(theirs)
    ensures Prepare(form).matchResult == Some(if ours > theirs then "win" else if ours < theirs then "loss" else "draw")
  {
    ScoreRoundTrip(ours);
    ScoreRoundTrip(theirs);
  }

  /** A goalless draw: the page sends a draw with two zero scores, and the
      server, reading 0 as missing, stores the draw with no scores. */
  lemma GoallessDrawStoredWithoutScores(form: Form, id: Id, recordedBy: Id, now: Time)
    requires Accepted(form) && form.ourScore == "0" && form.opponentScore == "0"
    ensures Prepare(form).matchResult == Some("draw")
    ensures var r := Matches.Record(Wire(Prepare(form)), id, recordedBy, now);
            r.matchResult == Some("draw") && r.ourScore.None? && r.opponentScore.None?
  {
    var zero := ShowInt(0);
    assert zero == "0";
    ScoreRoundTrip(0);
    assert ScoreInput(form.ourScore) == Some(Finite(0)) && ScoreInput(form.opponentScore) == Some(Finite(0));
    ScoresDecideResult(form, 0, 0);
  }

  /** A score that is not a number is sent as `null`, and the result derived
      from it is a draw whatever the other score. */
  lemma UnreadableScoreIsDraw(form: Form)
    requires form.matchDate.Some? && form.ourScore == "abc" && form.opponentScore != ""
    ensures Prepare(form).matchResult == Some("draw")
    ensures Wire(Prepare(form)).ourScore.None?
  {
    ParseWithoutDigits("abc");
  }

  /** A match the page sends never meets the server's missing-field
      refusal. */
  lemma SentMatchComplete(form: Form)
    requires Accepted(form)
    ensures Matches.Complete(Wire(Prepare(form)))
  {
  }

  /** `handleSubmit(onSubmit)`: a form with a failing rule is not submitted
      and shows its field messages. Otherwise the guard, then the token. A
      missing token is thrown and caught, so the page shows the generic
      failure and nothing is sent. */
  method OnSubmit(page: SubmitState, form: Form, token: Option<string>) returns (sent: Option<Payload>)
    modifies page
    ensures !Accepted(form) || old(page.submitting) ==> sent.None? && unchanged(page)
    ensures Accepted(form) && !old(page.submitting) && !Truthy(token) ==>
              sent.None? && !page.submitting && page.error == SaveFailedMsg
    ensures Accepted(form) && !old(page.submitting) && Truthy(token) ==>
              sent == Some(Prepare(form)) && page.submitting && page.error == ""
  {
    if !Accepted(form) {
      return None;
    }
    var started := page.Begin();
    if !started {
      return None;
    }
    if !Truthy(token) {
      page.Fail(SaveFailedMsg);
      return None;
    }
    return Some(Prepare(form));
  }

  /** The answer to the request: success closes the form; any failure shows
      the generic message. */
  method Settle(page: SubmitState, ok: bool)
    modifies page
    ensures !page.submitting
    ensures ok ==> page.succeeded && page.error == old(page.error)
    ensures !ok ==> page.error == SaveFailedMsg && page.succeeded == old(page.succeeded)
  {
    if ok {
      page.Succeed();
    } else {
      page.Fail(SaveFailedMsg);
    }
  }

  // ---------------------------------------------------------------------
  // The list by year and month

  /** `getMonth()`: 0 for January to 11 for December. */
  type Month = m: int | 0 <= m < 12

  datatype Calendar = Calendar(yearOf: Time -> int, monthOf: Time -> Month)

  datatype YearMonth = YearMonth(year: int, month: Month)

  /** One heading of the list: the month and its matches. The month's
      display name is left to the locale. */
  datatype MonthGroup = MonthGroup(year: int, month: Month, matches: seq<MatchRecord>)

  function MonthOf(cal: Calendar): MatchRecord -> YearMonth {
    (m: MatchRecord) => YearMonth(cal.yearOf(m.matchDate), cal.monthOf(m.matchDate))
  }

  function YearOf(cal: Calendar): MatchRecord -> int {
    (m: MatchRecord) => cal.yearOf(m.matchDate)
  }

  function Descending(y: int): int { -y }

  /** `years`: the distinct years of the matches, latest first. */
  function Years(ms: seq<MatchRecord>, cal: Calendar): seq<int> {
    SortBy(DistinctKeys(ms, YearOf(cal)), Descending)
  }

  /** The years strictly decrease: latest first, none twice. */
  lemma YearsDecrease(ms: seq<MatchRecord>, cal: Calendar, i: nat, j: nat)
    requires i < j < |Years(ms, cal)|
    ensures Years(ms, cal)[i] > Years(ms, cal)[j]
  {
    var ks := DistinctKeys(ms, YearOf(cal));
    var ys := Years(ms, cal);
    PermutationOfDistinct(ks, ys);
    assert Descending(ys[i]) <= Descending(ys[j]);
  }

  /** A year is listed exactly when some match falls in it. */
  lemma YearsListed(ms: seq<MatchRecord>, cal: Calendar, y: int)
    ensures y in Years(ms, cal) <==> exists m | m in ms :: cal.yearOf(m.matchDate) == y
  {
    var ks := DistinctKeys(ms, YearOf(cal));
    SortByMembers(ks, Descending, y);
    if y in ks {
      var i := KeyOccurs(ms, YearOf(cal), y);
      assert ms[i] in ms;
    }
    if exists m | m in ms :: cal.yearOf(m.matchDate) == y {
      var m :| m in ms && cal.yearOf(m.matchDate) == y;
      var i :| 0 <= i < |ms| && ms[i] == m;
      assert YearOf(cal)(ms[i]) in ks;
    }
  }

  /** The group of month `k`: its matches, latest first. */
  function GroupOf(ms: seq<MatchRecord>, cal: Calendar, k: YearMonth): MonthGroup {
    MonthGroup(k.year, k.month, SortBy(SelectKey(ms, MonthOf(cal), k), Matches.LatestFirst))
  }

  function GroupsFor(ms: seq<MatchRecord>, cal: Calendar, ks: seq<YearMonth>): (gs: seq<MonthGroup>)
    ensures |gs| == |ks|
  {
    if |ks| == 0 then [] else [GroupOf(ms, cal, ks[0])] + GroupsFor(ms, cal, ks[1..])
  }

  lemma {:induction false} GroupsForAt(ms: seq<MatchRecord>, cal: Calendar, ks: seq<YearMonth>, i: nat)
    requires i < |ks|
    ensures GroupsFor(ms, cal, ks)[i] == GroupOf(ms, cal, ks[i])
  {
    if i > 0 {
      GroupsForAt(ms, cal, ks[1..], i - 1);
    }
  }

  lemma {:induction false} GroupsForSnoc(ms: seq<MatchRecord>, cal: Calendar, ks: seq<YearMonth>, k: YearMonth)
    ensures GroupsFor(ms, cal, ks + [k]) == GroupsFor(ms, cal, ks) + [GroupOf(ms, cal, k)]
  {
    if |ks| == 0 {
      assert ks + [k] == [k];
      assert GroupsFor(ms, cal, [k]) == [GroupOf(ms, cal, k)] + GroupsFor(ms, cal, []);
    } else {
      var rest := ks[1..];
      assert (ks + [k])[0] == ks[0] && (ks + [k])[1..] == rest + [k];
      GroupsForSnoc(ms, cal, rest, k);
      calc {
        GroupsFor(ms, cal, ks + [k]);
        [GroupOf(ms, cal, ks[0])] + GroupsFor(ms, cal, rest + [k]);
        [GroupOf(ms, cal, ks[0])] + (GroupsFor(ms, cal, rest) + [GroupOf(ms, cal, k)]);
        ([GroupOf(ms, cal, ks[0])] + GroupsFor(ms, cal, rest)) + [GroupOf(ms, cal, k)];
        GroupsFor(ms, cal, ks) + [GroupOf(ms, cal, k)];
      }
    }
  }

  /** Sort key for the comparator on year, then month, both descending. */
  function Recency(g: MonthGroup): int { -(g.year * 12 + g.month) }

  /** `sortedGroups`. */
  function SortedGroups(ms: seq<MatchRecord>, cal: Calendar): seq<MonthGroup> {
    SortBy(GroupsFor(ms, cal, DistinctKeys(ms, MonthOf(cal))), Recency)
  }

  /** Each listed group is the group of one month that has matches. */
  lemma {:induction false} ListedGroup(ms: seq<MatchRecord>, cal: Calendar, g: MonthGroup) returns (a: nat)
    requires g in SortedGroups(ms, cal)
    ensures var ks := DistinctKeys(ms, MonthOf(cal));
            a < |ks| && g == GroupOf(ms, cal, ks[a]) && ks[a] == YearMonth(g.year, g.month)
  {
    var ks := DistinctKeys(ms, MonthOf(cal));
    var unsorted := GroupsFor(ms, cal, ks);
    SortByMembers(unsorted, Recency, g);
    var i :| 0 <= i < |unsorted| && unsorted[i] == g;
    GroupsForAt(ms, cal, ks, i);
    a := i;
  }

  /** No two listed groups are for the same month. */
  lemma GroupMonthsDistinct(ms: seq<MatchRecord>, cal: Calendar, i: nat, j: nat)
    requires i < j < |SortedGroups(ms, cal)|
    ensures var gs := SortedGroups(ms, cal);
            YearMonth(gs[i].year, gs[i].month) != YearMonth(gs[j].year, gs[j].month)
  {
    var ks := DistinctKeys(ms, MonthOf(cal));
    var unsorted := GroupsFor(ms, cal, ks);
    var gs := SortedGroups(ms, cal);
    assert Distinct(unsorted) by {
      forall p, q | 0 <= p < q < |unsorted| ensures unsorted[p] != unsorted[q] {
        GroupsForAt(ms, cal, ks, p);
        GroupsForAt(ms, cal, ks, q);
        assert YearMonth(unsorted[p].year, unsorted[p].month) == ks[p];
      }
    }
    PermutationOfDistinct(unsorted, gs);
    var a := ListedGroup(ms, cal, gs[i]);
    var b := ListedGroup(ms, cal, gs[j]);
    assert a != b;
  }

  /** The groups run from the latest month to the earliest: by year
      descending, then by month descending. */
  lemma GroupsLatestFirst(ms: seq<MatchRecord>, cal: Calendar, i: nat, j: nat)
    requires i < j < |SortedGroups(ms, cal)|
    ensures var gs := SortedGroups(ms, cal);
            gs[i].year > gs[j].year || (gs[i].year == gs[j].year && gs[i].month > gs[j].month)
  {
    var gs := SortedGroups(ms, cal);
    assert Recency(gs[i]) <= Recency(gs[j]);
    GroupMonthsDistinct(ms, cal, i, j);
  }

  /** Every match is listed, in the group of its own month and no other. */
  lemma EveryMatchInItsGroup(ms: seq<MatchRecord>, cal: Calendar, m: MatchRecord)
    requires m in ms
    ensures exists i | 0 <= i < |SortedGroups(ms, cal)| :: m in SortedGroups(ms, cal)[i].matches
    ensures forall i | 0 <= i < |SortedGroups(ms, cal)| && m in SortedGroups(ms, cal)[i].matches ::
              YearMonth(SortedGroups(ms, cal)[i].year, SortedGroups(ms, cal)[i].month) == MonthOf(cal)(m)
  {
    var ks := DistinctKeys(ms, MonthOf(cal));
    var unsorted := GroupsFor(ms, cal, ks);
    var gs := SortedGroups(ms, cal);
    var p :| 0 <= p < |ms| && ms[p] == m;
    var k := MonthOf(cal)(m);
    assert MonthOf(cal)(ms[p]) in ks;
    var a :| 0 <= a < |ks| && ks[a] == k;
    SelectKeyMembers(ms, MonthOf(cal), k);
    SortByMembers(SelectKey(ms, MonthOf(cal), k), Matches.LatestFirst, m);
    GroupsForAt(ms, cal, ks, a);
    assert m in unsorted[a].matches;
    SortByMembers(unsorted, Recency, unsorted[a]);
    var i :| 0 <= i < |gs| && gs[i] == unsorted[a];
    forall i | 0 <= i < |gs| && m in gs[i].matches ensures YearMonth(gs[i].year, gs[i].month) == k {
      var b := ListedGroup(ms, cal, gs[i]);
      SelectKeyMembers(ms, MonthOf(cal), ks[b]);
      SortByMembers(SelectKey(ms, MonthOf(cal), ks[b]), Matches.LatestFirst, m);
    }
  }

  /** Within a group the matches are its month's matches, latest first. */
  lemma GroupMatchesLatestFirst(ms: seq<MatchRecord>, cal: Calendar, g: MonthGroup)
    requires g in SortedGroups(ms, cal)
    ensures multiset(g.matches) == multiset(SelectKey(ms, MonthOf(cal), YearMonth(g.year, g.month)))
    ensures forall p, q | 0 <= p < q < |g.matches| :: g.matches[p].matchDate >= g.matches[q].matchDate
  {
    var a := ListedGroup(ms, cal, g);
    forall p, q | 0 <= p < q < |g.matches| ensures g.matches[p].matchDate >= g.matches[q].matchDate {
      assert Matches.LatestFirst(g.matches[p]) <= Matches.LatestFirst(g.matches[q]);
    }
  }

  function GroupSize(g: MonthGroup): nat { |g.matches| }

  lemma {:induction false} GroupsForSizes(ms: seq<MatchRecord>, cal: Calendar, ks: seq<YearMonth>)
    ensures SumOf(GroupsFor(ms, cal, ks), GroupSize) == GroupSizes(ms, MonthOf(cal), ks)
  {
    if |ks| > 0 {
      var gs := GroupsFor(ms, cal, ks);
      assert gs[1..] == GroupsFor(ms, cal, ks[1..]);
      GroupsForSizes(ms, cal, ks[1..]);
    }
  }

  /** Grouping loses and repeats nothing: the group sizes add up to the
      number of matches. */
  lemma GroupSizesAddUp(ms: seq<MatchRecord>, cal: Calendar)
    ensures SumOf(SortedGroups(ms, cal), GroupSize) == |ms|
  {
    var ks := DistinctKeys(ms, MonthOf(cal));
    SumOfSortBy(GroupsFor(ms, cal, ks), Recency, GroupSize);
    GroupsForSizes(ms, cal, ks);
    GroupSizesSum(ms, MonthOf(cal));
  }

  /** The dictionary's array for a month, sorted latest first, is that
      month's group. */
  lemma GroupFromMap(ms: seq<MatchRecord>, cal: Calendar, k: YearMonth)
    requires k in DistinctKeys(ms, MonthOf(cal))
    ensures k in GroupMap(ms, MonthOf(cal))
    ensures GroupOf(ms, cal, k) == MonthGroup(k.year, k.month, SortBy(GroupMap(ms, MonthOf(cal))[k], Matches.LatestFirst))
  {
    GroupMapAt(ms, MonthOf(cal), k);
  }

  lemma GroupsForPrefix(ms: seq<MatchRecord>, cal: Calendar, ks: seq<YearMonth>, i: nat)
    requires i < |ks|
    ensures GroupsFor(ms, cal, ks[..i + 1]) == GroupsFor(ms, cal, ks[..i]) + [GroupOf(ms, cal, ks[i])]
  {
    assert ks[..i + 1] == ks[..i] + [ks[i]];
    GroupsForSnoc(ms, cal, ks[..i], ks[i]);
  }

  /** The `reduce` into a dictionary keyed by month, each group's matches
      sorted latest first, and the groups sorted latest month first. */
  method GroupByMonth(ms: seq<MatchRecord>, cal: Calendar) returns (groups: seq<MonthGroup>)
    ensures groups == SortedGroups(ms, cal)
  {
    var keys, byMonth := GroupBy(ms, MonthOf(cal));
    var unsorted: seq<MonthGroup> := [];
    var i := 0;
    while i < |keys|
      invariant 0 <= i <= |keys|
      invariant unsorted == GroupsFor(ms, cal, keys[..i])
    {
      var k := keys[i];
      GroupFromMap(ms, cal, k);
      GroupsForPrefix(ms, cal, keys, i);
      unsorted := unsorted + [MonthGroup(k.year, k.month, SortBy(byMonth[k], Matches.LatestFirst))];
      i := i + 1;
    }
    assert keys[..i] == keys;
    groups := SortBy(unsorted, Recency);
  }
}
