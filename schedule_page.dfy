/** The schedule page: creating an event from the date and the two time
    fields of the form, the list of events grouped by day, and the label of
    an event's type. Reading a date-time text (`new Date(...)`) and writing
    a day heading in the Indonesian locale are given as functions. */
module SchedulePage {
  import opened Common
  import opened Seqs
  import opened Schema
  import Events
  import opened Submission

  const CreateFailedMsg: string := "Gagal membuat jadwal baru. Silakan coba lagi nanti."
  const TitleRequiredMsg: string := "Judul kegiatan wajib diisi"
  const TypeRequiredMsg: string := "Jenis kegiatan wajib dipilih"
  const DateRequiredMsg: string := "Tanggal wajib diisi"
  const StartRequiredMsg: string := "Waktu mulai wajib diisi"
  const EndRequiredMsg: string := "Waktu selesai wajib diisi"

  // ---------------------------------------------------------------------
  // Creating an event

  /** The form as typed: a date, two times of day and the other fields. */
  datatype Form = Form(
    title: string,
    description: string,
    eventType: string,
    eventDate: string,
    startTime: string,
    endTime: string,
    isPublic: bool)

  /** The message under each field, `None` when its rule passes. */
  datatype Errors = Errors(
    title: Option<string>,
    eventType: Option<string>,
    eventDate: Option<string>,
    startTime: Option<string>,
    endTime: Option<string>)

  /** A `required` rule: an empty field gets the message. */
  function Required(value: string, msg: string): (e: Option<string>)
    ensures e.None? <==> value != ""
    ensures e.Some? ==> e.value == msg
  {
    if value == "" then Some(msg) else None
  }

  /** The five `required` rules; description and the checkbox have none. */
  function Check(form: Form): (e: Errors)
    ensures e.title.None? <==> form.title != ""
    ensures e.eventType.None? <==> form.eventType != ""
    ensures e.eventDate.None? <==> form.eventDate != ""
    ensures e.startTime.None? <==> form.startTime != ""
    ensures e.endTime.None? <==> form.endTime != ""
    ensures e.title.Some? ==> e.title.value == TitleRequiredMsg
    ensures e.eventType.Some? ==> e.eventType.value == TypeRequiredMsg
    ensures e.eventDate.Some? ==> e.eventDate.value == DateRequiredMsg
    ensures e.startTime.Some? ==> e.startTime.value == StartRequiredMsg
    ensures e.endTime.Some? ==> e.endTime.value == EndRequiredMsg
  {
    Errors(Required(form.title, TitleRequiredMsg), Required(form.eventType, TypeRequiredMsg),
           Required(form.eventDate, DateRequiredMsg), Required(form.startTime, StartRequiredMsg),
           Required(form.endTime, EndRequiredMsg))
  }

  predicate Accepted(form: Form) {
    Check(form) == Errors(None, None, None, None, None)
  }

  /** `new Date(text)`: the timestamp a date-time text denotes, `None` for
      an invalid date (whose `toISOString` throws). */
  type DateReader = string -> Option<Time>

  /** `eventData`: the form with both times replaced by instants. */
  datatype Payload = Payload(
    title: string,
    description: string,
    eventType: string,
    startTime: Time,
    endTime: Time,
    isPublic: bool)

  /** `${eventDate}T${time}`. */
  function DateTimeText(date: string, time: string): string {
    date + "T" + time
  }

  /** Both instants come from the one date, each with its own time of day;
      the payload exists only when both texts are dates. */
  function Prepare(form: Form, read: DateReader): (p: Option<Payload>)
    ensures p.Some? <==> read(DateTimeText(form.eventDate, form.startTime)).Some?
                         && read(DateTimeText(form.eventDate, form.endTime)).Some?
    ensures p.Some? ==> p.value.startTime == read(DateTimeText(form.eventDate, form.startTime)).value
    ensures p.Some? ==> p.value.endTime == read(DateTimeText(form.eventDate, form.endTime)).value
    ensures p.Some? ==> p.value.title == form.title && p.value.description == form.description
                        && p.value.eventType == form.eventType && p.value.isPublic == form.isPublic
  {
    var start := read(DateTimeText(form.eventDate, form.startTime));
    var end := read(DateTimeText(form.eventDate, form.endTime));
    if start.Some? && end.Some? then
      Some(Payload(form.title, form.description, form.eventType, start.value, end.value, form.isPublic))
    else None
  }

  /** The request the server reads from the posted JSON. */
  function Wire(p: Payload): Events.Request {
    Events.Request(Some(p.title), Some(p.description), Some(p.startTime), Some(p.endTime),
                   Some(p.eventType), Some(p.isPublic))
  }

  /** The server takes a prepared event exactly when its title and type are
      filled in, and keeps the checkbox as it was, unticked included. */
  lemma WireAccepted(p: Payload)
    ensures Events.Complete(Wire(p)) <==> p.title != "" && p.eventType != ""
    ensures Events.PublicFlag(Wire(p).isPublic) == p.isPublic
  {
  }

  /** The same time typed twice gives an event that ends as it starts:
      nothing on the page orders the two times. */
  lemma SameTimesSameInstant(form: Form, read: DateReader)
    requires form.startTime == form.endTime && Prepare(form, read).Some?
    ensures Prepare(form, read).value.startTime == Prepare(form, read).value.endTime
  {
  }

  /** An event the page sends never meets the server's missing-field
      refusal. */
  lemma SentEventComplete(form: Form, read: DateReader)
    requires Accepted(form) && Prepare(form, read).Some?
    ensures Events.Complete(Wire(Prepare(form, read).value))
  {
    WireAccepted(Prepare(form, read).value);
  }

  /** `handleSubmit(onSubmit)`: a form with an empty required field is not
      submitted and shows its field messages. Otherwise the guard, then the
      token, then the two instants. A missing token or an invalid date is
      thrown and caught, so the page shows the generic failure and nothing
      is sent. */
  method OnSubmit(page: SubmitState, form: Form, token: Option<string>, read: DateReader)
    returns (sent: Option<Payload>)
    modifies page
    ensures !Accepted(form) || old(page.submitting) ==> sent.None? && unchanged(page)
    ensures Accepted(form) && !old(page.submitting) && (!Truthy(token) || Prepare(form, read).None?) ==>
              sent.None? && !page.submitting && page.error == CreateFailedMsg
    ensures Accepted(form) && !old(page.submitting) && Truthy(token) && Prepare(form, read).Some? ==>
              sent == Prepare(form, read) && page.submitting && page.error == ""
  {
    if !Accepted(form) {
      return None;
    }
    var started := page.Begin();
    if !started {
      return None;
    }
    if !Truthy(token) {
      page.Fail(CreateFailedMsg);
      return None;
    }
    var p := Prepare(form, read);
    if p.None? {
      page.Fail(CreateFailedMsg);
      return None;
    }
    return p;
  }

  /** The answer to the request: success hides the form; any failure shows
      the generic message. */
  method Settle(page: SubmitState, ok: bool)
    modifies page
    ensures !page.submitting
    ensures ok ==> page.succeeded && page.error == old(page.error)
    ensures !ok ==> page.error == CreateFailedMsg && page.succeeded == old(page.succeeded)
  {
    if ok {
      page.Succeed();
    } else {
      page.Fail(CreateFailedMsg);
    }
  }

  // ---------------------------------------------------------------------
  // The list by day

  /** `toLocaleDateString('id-ID', ...)` of a start time: the day heading. */
  type DayLabel = Time -> string

  function DayOf(dayName: DayLabel): Event -> string {
    (e: Event) => dayName(e.startTime)
  }

  /** `Object.entries(eventsByDate)`: one group per day heading, in the order
      the days first occur, each with that day's events. The headings are
      not integer-like, so the dictionary keeps its insertion order. */
  function DayGroups(es: seq<Event>, dayName: DayLabel): seq<Group<string, Event>> {
    Groups(es, DayOf(dayName), DistinctKeys(es, DayOf(dayName)))
  }

  /** The `reduce` into a dictionary of arrays, then its entries. */
  method EventsByDate(es: seq<Event>, dayName: DayLabel) returns (groups: seq<Group<string, Event>>)
    ensures groups == DayGroups(es, dayName)
  {
    var days, byDay := GroupBy(es, DayOf(dayName));
    groups := [];
    var i := 0;
    while i < |days|
      invariant 0 <= i <= |days|
      invariant groups == Groups(es, DayOf(dayName), days[..i])
    {
      var d := days[i];
      GroupMapAt(es, DayOf(dayName), d);
      GroupsSnoc(es, DayOf(dayName), days[..i], d);
      assert days[..i + 1] == days[..i] + [d];
      groups := groups + [Group(d, byDay[d])];
      i := i + 1;
    }
    assert days[..i] == days;
  }

  /** Each event is listed under its own day, and under that day only. */
  lemma EveryEventUnderItsDay(es: seq<Event>, dayName: DayLabel, e: Event) returns (i: nat)
    requires e in es
    ensures i < |DayGroups(es, dayName)| && e in DayGroups(es, dayName)[i].items
    ensures DayGroups(es, dayName)[i].heading == dayName(e.startTime)
    ensures forall j | 0 <= j < |DayGroups(es, dayName)| && e in DayGroups(es, dayName)[j].items :: j == i
  {
    var ks := DistinctKeys(es, DayOf(dayName));
    var gs := DayGroups(es, dayName);
    var p :| 0 <= p < |es| && es[p] == e;
    assert DayOf(dayName)(es[p]) in ks;
    i := GroupsFind(es, DayOf(dayName), ks, dayName(e.startTime));
    GroupsAt(es, DayOf(dayName), ks, i);
    SelectKeyMembers(es, DayOf(dayName), dayName(e.startTime));
    forall j | 0 <= j < |gs| && e in gs[j].items ensures j == i {
      GroupsAt(es, DayOf(dayName), ks, j);
      SelectKeyMembers(es, DayOf(dayName), ks[j]);
    }
  }

  /** No day heading is listed twice. */
  lemma DaysDistinct(es: seq<Event>, dayName: DayLabel, i: nat, j: nat)
    requires i < j < |DayGroups(es, dayName)|
    ensures DayGroups(es, dayName)[i].heading != DayGroups(es, dayName)[j].heading
  {
    var ks := DistinctKeys(es, DayOf(dayName));
    GroupsAt(es, DayOf(dayName), ks, i);
    GroupsAt(es, DayOf(dayName), ks, j);
  }

  /** Within a day the events keep the order of the list they came in: the
      `n`-th event of the group is the one at the `n`-th of the increasing
      positions holding that day. */
  lemma DayKeepsInputOrder(es: seq<Event>, dayName: DayLabel, i: nat) returns (idx: seq<nat>)
    requires i < |DayGroups(es, dayName)|
    ensures var g := DayGroups(es, dayName)[i];
            && |idx| == |g.items|
            && (forall n | 0 <= n < |idx| :: idx[n] < |es| && es[idx[n]] == g.items[n])
            && (forall n, m | 0 <= n < m < |idx| :: idx[n] < idx[m])
            && (forall q | 0 <= q < |es| && dayName(es[q].startTime) == g.heading :: q in idx)
  {
    var ks := DistinctKeys(es, DayOf(dayName));
    GroupsAt(es, DayOf(dayName), ks, i);
    var k := ks[i];
    idx := Positions(es, DayOf(dayName), k);
    PositionsPick(es, DayOf(dayName), k);
    PositionsIncrease(es, DayOf(dayName), k);
    forall q | 0 <= q < |es| && dayName(es[q].startTime) == k ensures q in idx {
      PositionsComplete(es, DayOf(dayName), k, q);
    }
  }

  /** Days are listed in the order they first occur: an event of the earlier
      day comes before every event of the later one. */
  lemma DaysInFirstOccurrenceOrder(es: seq<Event>, dayName: DayLabel, i: nat, j: nat) returns (p: nat)
    requires i < j < |DayGroups(es, dayName)|
    ensures p < |es| && dayName(es[p].startTime) == DayGroups(es, dayName)[i].heading
    ensures forall q | 0 <= q <= p :: dayName(es[q].startTime) != DayGroups(es, dayName)[j].heading
  {
    var ks := DistinctKeys(es, DayOf(dayName));
    GroupsAt(es, DayOf(dayName), ks, i);
    GroupsAt(es, DayOf(dayName), ks, j);
    p := DistinctKeysFirstOccurrence(es, DayOf(dayName), i, j);
    assert DayOf(dayName)(es[p]) == dayName(es[p].startTime);
    forall q | 0 <= q <= p ensures dayName(es[q].startTime) != ks[j] {
      assert DayOf(dayName)(es[q]) != ks[j];
    }
  }

  /** The groups together hold every event once. */
  lemma DayGroupsAddUp(es: seq<Event>, dayName: DayLabel)
    ensures SumOf(DayGroups(es, dayName), GroupLength) == |es|
  {
    GroupsTotal(es, DayOf(dayName), DistinctKeys(es, DayOf(dayName)));
    GroupSizesSum(es, DayOf(dayName));
  }

  // ---------------------------------------------------------------------
  // Type labels

  const KnownTypes: seq<string> := ["training", "tournament", "meeting"]

  /** The badge of an event: the three known types have their own labels,
      everything else (the form's `other` included) is `Lainnya`. */
  function TypeLabel(eventType: string): (l: string)
    ensures eventType !in KnownTypes <==> l == "Lainnya"
    ensures eventType == "training" <==> l == "Latihan"
    ensures eventType == "tournament" <==> l == "Turnamen"
    ensures eventType == "meeting" <==> l == "Rapat"
  {
    if eventType == "training" then "Latihan"
    else if eventType == "tournament" then "Turnamen"
    else if eventType == "meeting" then "Rapat"
    else "Lainnya"
  }
}
