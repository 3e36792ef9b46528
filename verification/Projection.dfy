/**
 Civil-day projection of schedules. A zone is its earliest-instant map from local
 seconds (counted from 1970-01-01T00:00 local) to Unix milliseconds, undefined where
 a local time is skipped, together with the local date of an instant.
 */
module Projection {
  import opened Outcomes
  import opened AgendaModel

  // The representable civil days, numbered from 1970-01-01.
  const FIRST_DAY := -96_465_292
  const LAST_DAY := 95_026_236
  const DAY_SECONDS := 86_400
  const SEARCH_DAYS := 3

  datatype Zone = Zone(earliest: int -> Option<int>, dateOf: int -> Option<int>)

  datatype View = View(today: int, zone: Zone)

  datatype Membership =
    | Civil(first: int, last: int)
    | Span(start: int, end: int)
    | Moment(at: int)

  function Succ(day: int): Option<int> {
    if FIRST_DAY <= day < LAST_DAY then Some(day + 1) else None
  }

  function AddDays(day: int, offset: nat): Option<int> {
    if FIRST_DAY <= day && day + offset <= LAST_DAY then Some(day + offset) else None
  }

  function DayStart(day: int): int {
    day * DAY_SECONDS
  }

  /** The instant of the first valid local second in a half-open range. */
  function FirstIn(zone: Zone, from: int, until: int): Option<int>
    decreases until - from
  {
    if from >= until then None
    else if zone.earliest(from).Some? then zone.earliest(from)
    else FirstIn(zone, from + 1, until)
  }

  function SearchFrom(zone: Zone, day: int, offset: nat): Option<int>
    requires offset <= SEARCH_DAYS
    decreases SEARCH_DAYS - offset
  {
    if offset == SEARCH_DAYS then None
    else
      var here := match AddDays(day, offset)
        case None => None
        case Some(d) => FirstIn(zone, DayStart(d), DayStart(d) + DAY_SECONDS);
      if here.Some? then here else SearchFrom(zone, day, offset + 1)
  }

  function Midnight(zone: Zone, day: int): Option<int> {
    SearchFrom(zone, day, 0)
  }

  function Bounds(zone: Zone, day: int): Option<(int, int)> {
    match (Midnight(zone, day), Succ(day))
    case (Some(a), Some(next)) =>
      (match Midnight(zone, next)
       case Some(b) => Some((a, b))
       case None => None)
    case _ => None
  }

  predicate Includes(m: Membership, day: int, bounds: Option<(int, int)>) {
    match m
    case Civil(s, e) => s <= day <= e
    case Span(s, e) => bounds.Some? && bounds.value.0 < bounds.value.1 && s < e
                       && s < bounds.value.1 && e > bounds.value.0
    case Moment(s) => bounds.Some? && bounds.value.0 <= s < bounds.value.1
  }

  function StoredDates(view: View, s: Schedule): (Option<int>, Option<int>) {
    match s.mode
    case Date => (s.startDate, s.endDate)
    case Timed => (LocalDate(view.zone, s.startMs), LocalDate(view.zone, s.endMs))
  }

  function LocalDate(zone: Zone, at: Option<int>): Option<int> {
    match at
    case Some(ms) => zone.dateOf(ms)
    case None => None
  }

  function MembershipOf(view: View, s: Schedule): Option<Membership> {
    match s.mode
    case Date => CivilMembership(view.today, s.startDate, s.endDate)
    case Timed => TimedMembership(view, s)
  }

  function CivilMembership(today: int, start: Option<int>, end: Option<int>): Option<Membership> {
    match (start, end)
    case (Some(s), Some(e)) => if s <= e then Some(Civil(s, e)) else None
    case (None, Some(e)) => if e >= today then Some(Civil(today, e)) else None
    case (Some(s), None) => if s <= today then Some(Civil(s, today)) else None
    case (None, None) => None
  }

  function TimedMembership(view: View, s: Schedule): Option<Membership> {
    var (startDate, endDate) := StoredDates(view, s);
    var range: Option<(int, int)> := match (s.startMs, s.endMs)
      case (Some(a), Some(b)) => if a <= b then Some((a, b)) else None
      case (None, Some(b)) =>
        if endDate.Some? && endDate.value >= view.today
        then (match Midnight(view.zone, view.today) case Some(a) => Some((a, b)) case None => None)
        else None
      case (Some(a), None) =>
        if startDate.Some? && startDate.value <= view.today
        then (match AddDays(view.today, 1)
              case Some(d) => (match Midnight(view.zone, d) case Some(b) => Some((a, b)) case None => None)
              case None => None)
        else None
      case (None, None) => None;
    match range
    case None => None
    case Some((a, b)) =>
      if a == b && s.startMs.Some? && s.endMs.Some? then Some(Moment(a))
      else if a < b then Some(Span(a, b))
      else None
  }

  predicate OnDay(view: View, s: Schedule, day: int) {
    var m := MembershipOf(view, s);
    m.Some? && Includes(m.value, day, Bounds(view.zone, day))
  }

  // ---------------------------------------------------------------- midnight

  /** `s` is the first valid local second of the range. */
  ghost predicate FirstValid(zone: Zone, from: int, until: int, s: int) {
    && from <= s < until
    && zone.earliest(s).Some?
    && forall k :: from <= k < s ==> zone.earliest(k).None?
  }

  ghost predicate NoneValid(zone: Zone, from: int, until: int) {
    forall k :: from <= k < until ==> zone.earliest(k).None?
  }

  /** The earliest-instant map never runs backwards on valid local times. */
  ghost predicate Monotone(zone: Zone) {
    forall a, b :: a <= b && zone.earliest(a).Some? && zone.earliest(b).Some?
      ==> zone.earliest(a).value <= zone.earliest(b).value
  }

  /** The last local second the three-day search may look at, exclusively. */
  function SearchEnd(day: int): int {
    DayStart(Min(day + SEARCH_DAYS, LAST_DAY + 1))
  }

  lemma {:induction false} FirstInFinds(zone: Zone, from: int, until: int)
    ensures FirstIn(zone, from, until).None? ==> NoneValid(zone, from, until)
    ensures FirstIn(zone, from, until).Some? ==>
      exists s :: FirstValid(zone, from, until, s) && zone.earliest(s) == FirstIn(zone, from, until)
    decreases until - from
  {
    if from < until {
      if zone.earliest(from).Some? {
        assert FirstValid(zone, from, until, from);
      } else {
        FirstInFinds(zone, from + 1, until);
        if FirstIn(zone, from, until).Some? {
          var s :| FirstValid(zone, from + 1, until, s) && zone.earliest(s) == FirstIn(zone, from, until);
          assert FirstValid(zone, from, until, s);
        }
      }
    }
  }

  lemma {:induction false} SearchUnfolds(zone: Zone, day: int, offset: nat)
    requires offset < SEARCH_DAYS && FIRST_DAY <= day && day + offset <= LAST_DAY
    ensures var from := DayStart(day + offset);
      var here := FirstIn(zone, from, from + DAY_SECONDS);
      SearchFrom(zone, day, offset) == if here.Some? then here else SearchFrom(zone, day, offset + 1)
    ensures DayStart(day + offset) + DAY_SECONDS == DayStart(day + offset + 1) <= SearchEnd(day)
  {}

  ghost predicate FoundFirst(zone: Zone, from: int, until: int, r: Option<int>) {
    if r.None? then NoneValid(zone, from, until)
    else exists s :: FirstValid(zone, from, until, s) && zone.earliest(s) == r
  }

  lemma {:induction false} FoundWider(zone: Zone, from: int, middle: int, end: int, r: Option<int>)
    requires from <= middle <= end
    ensures r.Some? && FoundFirst(zone, from, middle, r) ==> FoundFirst(zone, from, end, r)
    ensures NoneValid(zone, from, middle) && FoundFirst(zone, middle, end, r) ==> FoundFirst(zone, from, end, r)
  {}

  lemma {:induction false} FirstFound(zone: Zone, from: int, until: int)
    ensures FoundFirst(zone, from, until, FirstIn(zone, from, until))
  {
    FirstInFinds(zone, from, until);
  }

  lemma {:induction false} FoundInEither(
    zone: Zone, from: int, middle: int, end: int, here: Option<int>, later: Option<int>)
    requires from <= middle <= end
    requires FoundFirst(zone, from, middle, here) && FoundFirst(zone, middle, end, later)
    ensures FoundFirst(zone, from, end, if here.Some? then here else later)
  {
    FoundWider(zone, from, middle, end, here);
    FoundWider(zone, from, middle, end, later);
  }

  lemma {:induction false} SearchFinds(zone: Zone, day: int, offset: nat)
    requires offset <= SEARCH_DAYS && FIRST_DAY <= day
    ensures FoundFirst(zone, DayStart(day + offset), SearchEnd(day), SearchFrom(zone, day, offset))
    decreases SEARCH_DAYS - offset
  {
    if offset == SEARCH_DAYS || day + offset > LAST_DAY {
      SearchPastEnd(zone, day, offset);
    } else {
      var from := DayStart(day + offset);
      var next := DayStart(day + offset + 1);
      SearchUnfolds(zone, day, offset);
      FirstFound(zone, from, next);
      SearchFinds(zone, day, offset + 1);
      FoundInEither(zone, from, next, SearchEnd(day), FirstIn(zone, from, next), SearchFrom(zone, day, offset + 1));
    }
  }

  lemma {:induction false} SearchPastEnd(zone: Zone, day: int, offset: nat)
    requires offset <= SEARCH_DAYS && FIRST_DAY <= day
    requires offset == SEARCH_DAYS || day + offset > LAST_DAY
    ensures SearchFrom(zone, day, offset).None?
    ensures SearchEnd(day) <= DayStart(day + offset)
    decreases SEARCH_DAYS - offset
  {
    if offset < SEARCH_DAYS {
      SearchPastEnd(zone, day, offset + 1);
    }
  }

  /** Midnight is the first valid local second at or after the day start, searching three days. */
  lemma {:induction false} MidnightIsFirstValid(zone: Zone, day: int) returns (s: int)
    requires FIRST_DAY <= day
    ensures Midnight(zone, day).None? <==> NoneValid(zone, DayStart(day), SearchEnd(day))
    ensures Midnight(zone, day).Some? ==>
      FirstValid(zone, DayStart(day), SearchEnd(day), s) && Midnight(zone, day) == zone.earliest(s)
  {
    SearchFinds(zone, day, 0);
    s := 0;
    if Midnight(zone, day).Some? {
      s :| FirstValid(zone, DayStart(day), SearchEnd(day), s)
        && zone.earliest(s) == Midnight(zone, day);
    }
  }

  lemma {:induction false} MidnightMonotone(zone: Zone, a: int, b: int)
    requires Monotone(zone) && FIRST_DAY <= a <= b
    requires Midnight(zone, a).Some? && Midnight(zone, b).Some?
    ensures Midnight(zone, a).value <= Midnight(zone, b).value
  {
    var s := MidnightIsFirstValid(zone, a);
    var t := MidnightIsFirstValid(zone, b);
    assert s <= t;
  }

  // ---------------------------------------------------------------- tiling

  /** Consecutive days share their boundary. */
  lemma {:induction false} DaysTile(zone: Zone, day: int)
    requires Bounds(zone, day).Some? && Bounds(zone, day + 1).Some?
    ensures Bounds(zone, day).value.1 == Bounds(zone, day + 1).value.0
    ensures Monotone(zone) ==> Bounds(zone, day).value.0 <= Bounds(zone, day).value.1
  {
    if Monotone(zone) {
      MidnightMonotone(zone, day, day + 1);
    }
  }

  ghost predicate Covered(zone: Zone, a: int, b: int) {
    && FIRST_DAY <= a && b <= LAST_DAY
    && forall d :: a <= d <= b ==> Midnight(zone, d).Some?
  }

  /** An instant in a covered range of days falls on one of them. */
  lemma {:induction false} MomentHasDay(zone: Zone, a: int, b: int, t: int) returns (day: int)
    requires Covered(zone, a, b) && a < b
    requires Midnight(zone, a).value <= t < Midnight(zone, b).value
    ensures a <= day < b && Includes(Moment(t), day, Bounds(zone, day))
    decreases b - a
  {
    if t < Midnight(zone, a + 1).value {
      day := a;
    } else {
      day := MomentHasDay(zone, a + 1, b, t);
    }
  }

  lemma {:induction false} MomentBetween(zone: Zone, t: int, d: int)
    requires Includes(Moment(t), d, Bounds(zone, d))
    ensures FIRST_DAY <= d && Midnight(zone, d).Some? && Midnight(zone, d + 1).Some?
    ensures Midnight(zone, d).value <= t < Midnight(zone, d + 1).value
  {}

  /** ... and on no other day at all. */
  lemma {:induction false} MomentHasOneDay(zone: Zone, t: int, d: int, e: int)
    requires Monotone(zone)
    requires Includes(Moment(t), d, Bounds(zone, d)) && Includes(Moment(t), e, Bounds(zone, e))
    ensures d == e
  {
    MomentBetween(zone, t, d);
    MomentBetween(zone, t, e);
    if d < e {
      MidnightMonotone(zone, d + 1, e);
    } else if e < d {
      MidnightMonotone(zone, e + 1, d);
    }
  }

  /** A timed item is on exactly the days that hold one of its moments. */
  lemma {:induction false} SpanDays(zone: Zone, s: int, e: int, day: int)
    ensures Includes(Span(s, e), day, Bounds(zone, day)) <==>
      exists t :: s <= t < e && Includes(Moment(t), day, Bounds(zone, day))
  {
    var bounds := Bounds(zone, day);
    if Includes(Span(s, e), day, bounds) {
      var t := Max(s, bounds.value.0);
      assert s <= t < e && Includes(Moment(t), day, bounds);
    }
  }

  /** A civil day whose every local second is skipped holds no timed item. */
  lemma {:induction false} SkippedDayIsEmpty(zone: Zone, day: int, m: Membership)
    requires NoneValid(zone, DayStart(day), DayStart(day + 1))
    ensures !m.Civil? ==> !Includes(m, day, Bounds(zone, day))
  {
    if Bounds(zone, day).Some? {
      var s := MidnightIsFirstValid(zone, day);
      var t := MidnightIsFirstValid(zone, day + 1);
      assert s == t;
    }
  }

  // ---------------------------------------------------------------- half-open schedules

  /** The instant lies between this day's midnight and the next one. */
  predicate InDay(zone: Zone, day: int, t: int) {
    && FIRST_DAY <= day < LAST_DAY && Midnight(zone, day).Some? && Midnight(zone, day + 1).Some?
    && Midnight(zone, day).value <= t < Midnight(zone, day + 1).value
  }

  /** Some instant of the half-open range lies in the day. */
  ghost predicate Meets(zone: Zone, day: int, from: int, until: int) {
    exists t :: from <= t < until && InDay(zone, day, t)
  }

  lemma {:induction false} SpanMeets(zone: Zone, from: int, until: int, day: int)
    ensures Includes(Span(from, until), day, Bounds(zone, day)) <==> Meets(zone, day, from, until)
  {
    if Includes(Span(from, until), day, Bounds(zone, day)) {
      assert InDay(zone, day, Max(from, Midnight(zone, day).value));
    }
  }

  /**
   The days of a timed schedule: those that meet the time from its start to its end. Equal ends are one
   instant. A start alone, no later than today, runs through today; an end alone, no earlier than today,
   runs from today.
   */
  lemma {:induction false} TimedEndpoints(view: View, s: Schedule, day: int)
    requires s.mode == Timed
    ensures OnDay(view, s, day) <==>
      match (s.startMs, s.endMs)
      case (Some(a), Some(b)) => Meets(view.zone, day, a, b) || (a == b && InDay(view.zone, day, a))
      case (Some(a), None) =>
        && view.zone.dateOf(a).Some? && view.zone.dateOf(a).value <= view.today
        && FIRST_DAY <= view.today < LAST_DAY && Midnight(view.zone, view.today + 1).Some?
        && Meets(view.zone, day, a, Midnight(view.zone, view.today + 1).value)
      case (None, Some(b)) =>
        && view.zone.dateOf(b).Some? && view.zone.dateOf(b).value >= view.today
        && Midnight(view.zone, view.today).Some?
        && Meets(view.zone, day, Midnight(view.zone, view.today).value, b)
      case (None, None) => false
  {
    match (s.startMs, s.endMs)
    case (Some(a), Some(b)) =>
      SpanMeets(view.zone, a, b, day);
    case (Some(a), None) =>
      if FIRST_DAY <= view.today < LAST_DAY && Midnight(view.zone, view.today + 1).Some? {
        SpanMeets(view.zone, a, Midnight(view.zone, view.today + 1).value, day);
      }
    case (None, Some(b)) =>
      if Midnight(view.zone, view.today).Some? {
        SpanMeets(view.zone, Midnight(view.zone, view.today).value, b, day);
      }
    case (None, None) =>
  }

  /** A start-only schedule runs through today and an end-only one starts today. */
  lemma {:induction false} CivilEndpoints(view: View, s: Schedule, day: int)
    requires s.mode == Date
    ensures OnDay(view, s, day) <==>
      && (s.startDate.Some? || s.endDate.Some?)
      && s.startDate.GetOr(view.today) <= day <= s.endDate.GetOr(view.today)
  {}
}
