/**
 How a calendar event enters the agenda: its identity, its inclusive civil schedule, and the way
 back to the exclusive dates that older consumers read.
 */
module ImportAdapter {
  import opened Outcomes
  import opened AgendaModel
  import Projection
  import Cal = CalendarParser

  // ---------------------------------------------------------------- identities

  function Digits(n: nat): string {
    var low := ['0' + (n % 10) as char];
    if n < 10 then low else Digits(n / 10) + low
  }

  function Decimal(n: int): string {
    if n < 0 then "-" + Digits(-n) else Digits(n)
  }

  function EventId(sourceId: string, uid: string, start: int): string {
    sourceId + ":" + uid + ":" + Decimal(start)
  }

  function StripPrefix(s: string, prefix: string): Option<string> {
    if prefix <= s then Some(s[|prefix|..]) else None
  }

  /** What stands before the last colon. */
  function BeforeLastColon(s: string): Option<string> {
    if s == "" then None
    else
      var k := |s| - 1;
      if s[k] == ':' then Some(s[..k]) else BeforeLastColon(s[..k])
  }

  function SourceUid(sourceId: string, id: string): Option<string> {
    match StripPrefix(id, sourceId + ":")
    case None => None
    case Some(rest) => BeforeLastColon(rest)
  }

  /** The digested pair; equal digests mean equal pairs. */
  function Identity(sourceId: string, id: string): (string, string) {
    (sourceId, SourceUid(sourceId, id).GetOr(id))
  }

  lemma {:induction false} DigitsHaveNoColon(n: nat)
    ensures ':' !in Digits(n)
  {
    if n >= 10 {
      DigitsHaveNoColon(n / 10);
    }
  }

  lemma {:induction false} LastColonFound(before: string, after: string)
    requires ':' !in after
    ensures BeforeLastColon(before + ":" + after) == Some(before)
  {
    var s := before + ":" + after;
    var k := |s| - 1;
    if after == "" {
      assert s[..k] == before;
    } else {
      var m := |after| - 1;
      assert s[..k] == before + ":" + after[..m];
      assert s[k] == after[m];
      LastColonFound(before, after[..m]);
    }
  }

  /** The UID comes back from the event id, whatever colons the source or the UID holds. */
  lemma {:induction false} UidRecovered(sourceId: string, uid: string, start: int)
    ensures SourceUid(sourceId, EventId(sourceId, uid, start)) == Some(uid)
  {
    var id := EventId(sourceId, uid, start);
    DigitsHaveNoColon(if start < 0 then -start else start);
    LastColonFound(uid, Decimal(start));
    assert id[|sourceId + ":"|..] == uid + ":" + Decimal(start);
    assert id[..|sourceId + ":"|] == sourceId + ":";
  }

  /** The agenda identity is the source and the UID and nothing else: moving an event keeps it. */
  lemma {:induction false} IdentityExactly(a: string, uidA: string, startA: int, b: string, uidB: string, startB: int)
    ensures Identity(a, EventId(a, uidA, startA)) == Identity(b, EventId(b, uidB, startB))
            <==> a == b && uidA == uidB
  {
    UidRecovered(a, uidA, startA);
    UidRecovered(b, uidB, startB);
  }

  function ValueOf(digits: string): nat
    requires forall i :: 0 <= i < |digits| ==> '0' <= digits[i] <= '9'
  {
    if digits == "" then 0
    else
      var k := |digits| - 1;
      10 * ValueOf(digits[..k]) + (digits[k] as int - '0' as int)
  }

  lemma {:induction false} DigitsRead(n: nat)
    ensures Digits(n) != "" && forall i :: 0 <= i < |Digits(n)| ==> '0' <= Digits(n)[i] <= '9'
    ensures ValueOf(Digits(n)) == n
  {
    if n >= 10 {
      DigitsRead(n / 10);
      assert Digits(n)[..|Digits(n)| - 1] == Digits(n / 10);
    } else {
      assert Digits(n)[..0] == "";
    }
  }

  lemma {:induction false} DecimalInjective(a: int, b: int)
    requires Decimal(a) == Decimal(b)
    ensures a == b
  {
    DigitsRead(if a < 0 then -a else a);
    DigitsRead(if b < 0 then -b else b);
    if a < 0 {
      assert Decimal(b)[0] == '-';
      assert Digits(-a) == Decimal(a)[1..] == Decimal(b)[1..] == Digits(-b);
    } else {
      assert Decimal(a)[0] != '-';
    }
  }

  lemma {:induction false} DecimalHasNoColon(n: int)
    ensures ':' !in Decimal(n)
  {
    DigitsHaveNoColon(if n < 0 then -n else n);
  }

  /** Two event ids are equal exactly when source and UID run together the same and the starts agree. */
  lemma {:induction false} EventIdsExactly(a: string, uidA: string, startA: int, b: string, uidB: string, startB: int)
    ensures EventId(a, uidA, startA) == EventId(b, uidB, startB)
            <==> a + ":" + uidA == b + ":" + uidB && startA == startB
  {
    var left, right := a + ":" + uidA, b + ":" + uidB;
    if EventId(a, uidA, startA) == EventId(b, uidB, startB) {
      var id := EventId(a, uidA, startA);
      DecimalHasNoColon(startA);
      DecimalHasNoColon(startB);
      LastColonFound(left, Decimal(startA));
      LastColonFound(right, Decimal(startB));
      assert left == right;
      assert Decimal(startA) == id[|left| + 1..] == Decimal(startB);
      DecimalInjective(startA, startB);
    }
  }

  /** Event ids alone do not identify: two sources can build the same one. */
  lemma {:induction false} EventIdsCollide(start: int)
    ensures EventId("a:b", "c", start) == EventId("a", "b:c", start)
    ensures Identity("a:b", EventId("a:b", "c", start)) != Identity("a", EventId("a", "b:c", start))
  {
    EventIdsExactly("a:b", "c", start, "a", "b:c", start);
    IdentityExactly("a:b", "c", start, "a", "b:c", start);
  }

  // ---------------------------------------------------------------- schedules

  /** Days whose date is written in ten characters: the years 0000 to 9999. */
  predicate Written(day: int) {
    -719_528 <= day <= 2_932_896
  }

  function Pred(day: int): Option<int> {
    if Projection.FIRST_DAY < day <= Projection.LAST_DAY then Some(day - 1) else None
  }

  predicate ValidSchedule(s: Schedule) {
    match s.mode
    case Date =>
      && (s.startDate.Some? ==> Written(s.startDate.value))
      && (s.endDate.Some? ==> Written(s.endDate.value))
      && (s.startDate.Some? && s.endDate.Some? ==> s.startDate.value <= s.endDate.value)
    case Timed =>
      s.startMs.Some? && s.endMs.Some? ==> s.startMs.value <= s.endMs.value
  }

  /** The schedule an event is imported with; `None` refuses it. */
  function Imported(e: Cal.Event): Option<Schedule> {
    if e.allDay then
      match e.endDate
      case None => None
      case Some(end) =>
        (match Pred(end)
         case None => None
         case Some(last) =>
           var s := Schedule(Date, e.startDate, Some(last), None, None);
           if ValidSchedule(s) then Some(s) else None)
    else
      var s := Schedule(Timed, None, None, Some(e.start), Some(e.end));
      if ValidSchedule(s) then Some(s) else None
  }

  datatype Legacy = Legacy(start: int, end: int, startDate: Option<int>, endDate: Option<int>)

  /** The old form of a schedule, with an exclusive end. */
  function LegacyOf(view: Projection.View, s: Schedule): Option<Legacy> {
    match s.mode
    case Date =>
      var start := s.startDate.GetOr(view.today);
      (match Projection.Succ(s.endDate.GetOr(view.today))
       case None => None
       case Some(end) =>
         match (Projection.Midnight(view.zone, start), Projection.Midnight(view.zone, end))
         case (Some(a), Some(b)) => Some(Legacy(a, b, Some(start), Some(end)))
         case _ => None)
    case Timed =>
      match (OrMidnight(view, s.startMs, Some(view.today)), OrMidnight(view, s.endMs, Projection.Succ(view.today)))
      case (Some(a), Some(b)) => Some(Legacy(a, b, None, None))
      case _ => None
  }

  function OrMidnight(view: Projection.View, at: Option<int>, day: Option<int>): Option<int> {
    if at.Some? then at
    else if day.Some? then Projection.Midnight(view.zone, day.value)
    else None
  }

  /** An all-day time is a UTC midnight carrying its own date. */
  predicate Dated(t: Cal.Time) {
    t.allDay ==> t.date.Some? && Projection.FIRST_DAY <= t.date.value <= Projection.LAST_DAY
                 && t.unixMs == t.date.value * Cal.DAY_MS
  }

  predicate DatedBuilder(b: Cal.Builder) {
    (b.start.Some? ==> Dated(b.start.value)) && (b.end.Some? ==> Dated(b.end.value))
  }

  /** `next` is the first day after an all-day event: DTEND, or the day after DTSTART without one. */
  predicate Covers(b: Cal.Builder, first: int, next: int) {
    && b.start.Some? && b.start.value.date == Some(first)
    && (if b.end.Some? then b.end.value.date == Some(next) else next == first + 1)
  }

  lemma {:induction false} ScaledOrder(a: int, b: int)
    ensures a * Cal.DAY_MS < b * Cal.DAY_MS <==> a < b
  {}

  /** A finished all-day event keeps DTSTART and the exclusive end, which lies after it. */
  lemma {:induction false} FinishedDates(
    source: Cal.Source, b: Cal.Builder, e: Cal.Event)
    returns (first: int, next: int)
    requires DatedBuilder(b) && Cal.FinishEvent(source, b) == Cal.Produced(e) && e.allDay
    ensures Covers(b, first, next) && first < next
    ensures e.startDate == Some(first)
    ensures e.endDate == if next <= Projection.LAST_DAY then Some(next) else None
  {
    first := b.start.value.date.value;
    next := if b.end.Some? then b.end.value.date.value else first + 1;
    ScaledOrder(first, next);
  }

  /**
   An all-day event is imported exactly when its first and last days can be written, and is then
   on exactly the days from DTSTART up to, not including, the end.
   */
  lemma {:induction false} AllDayExactly(source: Cal.Source, b: Cal.Builder, e: Cal.Event, view: Projection.View)
    returns (first: int, next: int)
    requires DatedBuilder(b) && Cal.FinishEvent(source, b) == Cal.Produced(e) && e.allDay
    ensures Covers(b, first, next)
    ensures Imported(e).Some? <==> Written(first) && Written(next - 1)
    ensures Imported(e).Some? ==>
        forall day :: Projection.OnDay(view, Imported(e).value, day) <==> first <= day < next
  {
    first, next := FinishedDates(source, b, e);
  }

  /** Going back gives the same start and exclusive end, exactly when both midnights exist. */
  lemma {:induction false} LegacyRoundTrip(e: Cal.Event, view: Projection.View)
    requires Imported(e).Some? && (e.allDay ==> e.startDate.Some?)
    ensures !e.allDay ==> LegacyOf(view, Imported(e).value) == Some(Legacy(e.start, e.end, None, None))
    ensures e.allDay ==> e.endDate.Some?
    ensures e.allDay ==>
        var a := Projection.Midnight(view.zone, e.startDate.value);
        var b := Projection.Midnight(view.zone, e.endDate.value);
        LegacyOf(view, Imported(e).value)
        == if a.Some? && b.Some? then Some(Legacy(a.value, b.value, e.startDate, e.endDate)) else None
  {}
}
