/**
 The battery history recorder: a deque of sampled points on an active-only time axis, with a
 lazily computed energy history. Wall times are milliseconds, awake times nanoseconds.
 */
module BatteryHistory {
  import opened Outcomes
  import opened EnergyBins
  import opened EnergyTheorems

  const RETENTION := 7 * 24 * 60 * 60 * 1000
  const BUCKET := 15 * 60 * 1000
  const MAX_GAP := 2 * 60 * 1000
  const LEGACY_GAP := BUCKET + MAX_GAP
  const CLOCK_TOLERANCE := 1000
  const NS_PER_MS := 1_000_000

  datatype Reading = Reading(
    available: bool,
    plugged: bool,
    charging: bool,
    percentage: nat,
    watts: real,
    powerAvailable: bool,
    timeToFull: nat,
    wall: nat,
    awake: nat)

  datatype History = History(
    points: seq<Point>,
    active: nat,
    last: Option<(nat, nat)>,
    current: Option<Point>,
    lastCharge: nat,
    energy: Option<EnergyHistory>)

  function AbsDiff(a: nat, b: nat): nat {
    if a >= b then a - b else b - a
  }

  /** The awake milliseconds since the last observation, if it is close and the clocks agree. */
  function Delta(last: Option<(nat, nat)>, wall: nat, awake: nat): Option<nat> {
    if last.None? || wall < last.value.0 || awake < last.value.1 then None
    else
      var awakeDelta := (awake - last.value.1) / NS_PER_MS;
      if awakeDelta <= MAX_GAP && AbsDiff(wall - last.value.0, awakeDelta) <= CLOCK_TOLERANCE
      then Some(awakeDelta) else None
  }

  function ModeOf(charging: bool, plugged: bool): string {
    if charging then "charging" else if plugged then "holding" else "discharging"
  }

  /** Rounded to hundredths; negative input is recorded as zero. */
  function Rounded(watts: real): real {
    if watts >= 0.0 then (watts * 100.0 + 0.5).Floor as real / 100.0 else 0.0
  }

  function BucketOf(wall: nat): nat {
    wall - wall % BUCKET
  }

  /** Drops old points from the front; dropping one forgets the cached energy. */
  function Prune(h: History, now: nat): History
    decreases |h.points|
  {
    if h.points != [] && h.points[0].timestamp < MonusNat(now, RETENTION)
    then Prune(h.(points := h.points[1..], energy := None), now)
    else h
  }

  function PointOf(h: History, r: Reading, continuous: bool): Point {
    Point(r.wall, h.active, continuous, ModeOf(r.charging, r.plugged), r.percentage, Rounded(r.watts),
          Some(r.powerAvailable && r.watts >= 0.0),
          if r.charging && r.timeToFull > 0 then Some(r.timeToFull) else None, r.charging, r.plugged)
  }

  /** The clock, the last observation and the last charge after a reading, before any point is stored. */
  function Noted(h: History, r: Reading): History {
    h.(active := SatAdd(h.active, Delta(h.last, r.wall, r.awake).GetOr(0)),
       last := Some((r.wall, r.awake)),
       lastCharge := if !r.plugged && (h.lastCharge == 0 || (h.points != [] && h.points[|h.points| - 1].plugged))
                     then r.wall else h.lastCharge)
  }

  /** A point is stored after a gap, in a new bucket, and when power is connected or disconnected. */
  predicate Samples(h: History, r: Reading) {
    Delta(h.last, r.wall, r.awake).None? || h.points == []
    || (var back := h.points[|h.points| - 1];
        BucketOf(back.timestamp) != BucketOf(r.wall) || back.plugged != r.plugged || back.charging != r.charging)
  }

  /** Records one reading; the flag says that a point was stored. */
  function Record(h: History, r: Reading): (History, bool) {
    if !r.available then (h.(last := None, current := None), false)
    else
      var pruned := Prune(h, r.wall);
      var noted := Noted(pruned, r);
      var point := PointOf(noted, r, Delta(pruned.last, r.wall, r.awake).Some? && pruned.points != []);
      if Samples(pruned, r)
      then (Prune(noted.(points := noted.points + [point], energy := None), r.wall).(current := Some(point)), true)
      else (noted.(current := Some(point)), false)
  }

  /** The points as published: active times from the first point, which starts a segment. */
  function Rebased(points: seq<Point>): seq<Point> {
    seq(|points|, i requires 0 <= i < |points| =>
      points[i].(active := MonusNat(points[i].active, points[0].active),
                 continuous := i != 0 && points[i].continuous))
  }

  /** Publishing fills the energy cache if it is empty. */
  function Published(h: History): History {
    if h.energy.Some? then h else h.(energy := Some(EnergyOf(Rebased(h.points))))
  }

  /** A restart keeps the saved points and continues after the last of them. */
  function Loaded(points: seq<Point>, lastCharge: nat, now: nat): History {
    Prune(Unpruned(points, lastCharge), now)
  }

  function Unpruned(points: seq<Point>, lastCharge: nat): History {
    History(points, if points == [] then 0 else points[|points| - 1].active, None, None, lastCharge, None)
  }

  // ---------------------------------------------------------------- traces

  /** A history with everything it was told and, for each stored point, the reading it came from;
      loaded points come from none. */
  datatype Trace = Trace(h: History, readings: seq<Reading>, stamps: seq<int>)

  function Start(points: seq<Point>, lastCharge: nat, now: nat): Trace {
    var h := Loaded(points, lastCharge, now);
    Trace(h, [], seq(|h.points|, i => -1))
  }

  function LastN(stamps: seq<int>, n: nat): seq<int> {
    if n <= |stamps| then stamps[|stamps| - n..] else stamps
  }

  function Observe(t: Trace, r: Reading): Trace {
    var (h, stored) := Record(t.h, r);
    var stamps := if stored then t.stamps + [|t.readings|] else t.stamps;
    Trace(h, t.readings + [r], LastN(stamps, |h.points|))
  }

  predicate Passes(before: Reading, after: Reading) {
    before.available && after.available && Delta(Some((before.wall, before.awake)), after.wall, after.awake).Some?
  }

  /** Every reading after `a` up to `b` follows its predecessor without a gap or clock jump. */
  ghost predicate Unbroken(readings: seq<Reading>, a: int, b: int)
    requires b < |readings|
  {
    0 <= a <= b && forall k :: a < k <= b ==> Passes(readings[k - 1], readings[k])
  }

  /** The awake time between readings `a` and `b`, step by step. */
  function AwakeSum(readings: seq<Reading>, a: nat, b: nat): nat
    requires b < |readings|
    decreases b
  {
    if b <= a then 0
    else
      var before, after := readings[b - 1], readings[b];
      AwakeSum(readings, a, b - 1) + Delta(Some((before.wall, before.awake)), after.wall, after.awake).GetOr(0)
  }

  /** A recorded point is continuous exactly when nothing broke since the point before it, and then
      its active time is that point's plus the awake time between them. */
  ghost predicate Linked(t: Trace, i: nat)
    requires |t.stamps| == |t.h.points| && 0 < i < |t.h.points|
    requires t.stamps[i] < |t.readings|
  {
    t.stamps[i] >= 0 ==>
      && t.stamps[i - 1] < t.stamps[i]
      && (t.h.points[i].continuous <==> Unbroken(t.readings, t.stamps[i - 1], t.stamps[i]))
      && (t.h.points[i].continuous ==>
            t.h.points[i].active
            == SatAdd(t.h.points[i - 1].active, AwakeSum(t.readings, t.stamps[i - 1], t.stamps[i])))
  }

  /** What is known about the readings since the last stored point. */
  ghost predicate OpenEnd(t: Trace)
    requires |t.stamps| == |t.h.points|
  {
    var n := |t.readings| - 1;
    && (t.h.last.Some? <==> n >= 0 && t.readings[n].available)
    && (t.h.last.Some? ==> t.h.last.value == (t.readings[n].wall, t.readings[n].awake))
    && (t.h.points != [] ==> t.stamps[|t.stamps| - 1] <= n)
    && (t.h.points != [] && t.h.last.Some? ==>
          && Unbroken(t.readings, t.stamps[|t.stamps| - 1], n)
          && t.h.active
             == SatAdd(t.h.points[|t.h.points| - 1].active, AwakeSum(t.readings, t.stamps[|t.stamps| - 1], n)))
  }

  ghost predicate Sound(t: Trace) {
    && |t.stamps| == |t.h.points|
    && (forall i :: 0 <= i < |t.stamps| ==> t.stamps[i] < |t.readings|)
    && (forall i :: 0 < i < |t.stamps| ==> Linked(t, i))
    && OpenEnd(t)
  }

  /** How many leading points are older than the retention allows. */
  function Expired(points: seq<Point>, now: nat): (n: nat)
    ensures n <= |points|
  {
    if points != [] && points[0].timestamp < MonusNat(now, RETENTION) then 1 + Expired(points[1..], now) else 0
  }

  lemma {:induction false} PruneDropsExpired(h: History, now: nat)
    ensures Prune(h, now).points == h.points[Expired(h.points, now)..]
    decreases |h.points|
  {
    if h.points != [] && h.points[0].timestamp < MonusNat(now, RETENTION) {
      PruneDropsExpired(h.(points := h.points[1..], energy := None), now);
    }
  }

  lemma {:induction false} PruneDrops(h: History, now: nat)
    ensures exists n: nat :: n <= |h.points| && Prune(h, now).points == h.points[n..]
    ensures Prune(h, now) == h.(points := Prune(h, now).points, energy := Prune(h, now).energy)
    ensures Prune(h, now).points == h.points ==> Prune(h, now) == h
    ensures Prune(h, now).points != h.points ==> Prune(h, now).energy.None?
    decreases |h.points|
  {
    if h.points != [] && h.points[0].timestamp < MonusNat(now, RETENTION) {
      var next := h.(points := h.points[1..], energy := None);
      PruneDrops(next, now);
      var n: nat :| n <= |next.points| && Prune(next, now).points == next.points[n..];
      assert next.points[n..] == h.points[n + 1..];
    } else {
      assert h.points[0..] == h.points;
    }
  }

  function PruneTrace(t: Trace, now: nat): Trace {
    var h := Prune(t.h, now);
    t.(h := h, stamps := LastN(t.stamps, |h.points|))
  }

  /** Dropping points from the front keeps what is known about the rest. */
  lemma {:induction false} SuffixSound(t: Trace, after: Trace, n: nat)
    requires Sound(t) && n <= |t.h.points| && after.readings == t.readings
    requires after.h.points == t.h.points[n..] && after.stamps == t.stamps[n..]
    requires after.h.last == t.h.last && after.h.active == t.h.active
    ensures Sound(after)
  {
    forall i | 0 < i < |after.stamps|
      ensures Linked(after, i)
    {
      assert Linked(t, n + i);
      assert after.stamps[i] == t.stamps[n + i] && after.h.points[i] == t.h.points[n + i];
      assert after.stamps[i - 1] == t.stamps[n + i - 1] && after.h.points[i - 1] == t.h.points[n + i - 1];
    }
  }

  lemma {:induction false} PruneKeepsSound(t: Trace, now: nat)
    requires Sound(t)
    ensures Sound(PruneTrace(t, now))
  {
    PruneDrops(t.h, now);
    var n: nat :| n <= |t.h.points| && Prune(t.h, now).points == t.h.points[n..];
    SuffixSound(t, PruneTrace(t, now), n);
  }

  lemma {:induction false} SumIgnoresLater(readings: seq<Reading>, r: Reading, a: nat, b: nat)
    requires b < |readings|
    ensures AwakeSum(readings + [r], a, b) == AwakeSum(readings, a, b)
    decreases b
  {
    if a < b {
      SumIgnoresLater(readings, r, a, b - 1);
    }
  }

  lemma {:induction false} UnbrokenIgnoresLater(readings: seq<Reading>, r: Reading, a: int, b: int)
    requires b < |readings|
    ensures Unbroken(readings + [r], a, b) <==> Unbroken(readings, a, b)
  {
    if Unbroken(readings, a, b) {
      forall k | a < k <= b
        ensures Passes((readings + [r])[k - 1], (readings + [r])[k])
      {
        assert Passes(readings[k - 1], readings[k]);
      }
    }
    if Unbroken(readings + [r], a, b) {
      forall k | a < k <= b
        ensures Passes(readings[k - 1], readings[k])
      {
        assert Passes((readings + [r])[k - 1], (readings + [r])[k]);
      }
    }
  }

  /** Links among stored points do not depend on readings that come later. */
  lemma {:induction false} LinksIgnoreLater(t: Trace, later: Trace, r: Reading)
    requires Sound(t) && later.readings == t.readings + [r]
    requires later.h.points == t.h.points && later.stamps == t.stamps
    ensures forall i :: 0 < i < |t.stamps| ==> Linked(later, i)
  {
    forall i | 0 < i < |t.stamps|
      ensures Linked(later, i)
    {
      assert Linked(t, i);
      if t.stamps[i] >= 0 {
        UnbrokenIgnoresLater(t.readings, r, t.stamps[i - 1], t.stamps[i]);
        if t.stamps[i - 1] >= 0 {
          SumIgnoresLater(t.readings, r, t.stamps[i - 1], t.stamps[i]);
        }
      }
    }
  }

  lemma {:induction false} UnavailableKeepsSound(t: Trace, r: Reading)
    requires Sound(t) && !r.available
    ensures Sound(Observe(t, r))
  {
    var after := Observe(t, r);
    assert after.stamps == t.stamps;
    LinksIgnoreLater(t, after, r);
  }

  /** One more reading: the run since `a` goes on exactly when the reading passes. */
  lemma {:induction false} RunGrows(t: Trace, r: Reading, a: int)
    requires Sound(t) && r.available && a < |t.readings|
    requires t.h.last.Some? ==> Unbroken(t.readings, a, |t.readings| - 1)
    ensures var n := |t.readings|;
      && (Unbroken(t.readings + [r], a, n) <==> Delta(t.h.last, r.wall, r.awake).Some?)
      && (Delta(t.h.last, r.wall, r.awake).Some? ==>
            AwakeSum(t.readings + [r], a, n) ==
              AwakeSum(t.readings, a, n - 1) + Delta(t.h.last, r.wall, r.awake).value)
  {
    var n := |t.readings|;
    var longer := t.readings + [r];
    if t.h.last.Some? {
      assert longer[n - 1] == t.readings[n - 1] && longer[n] == r;
      UnbrokenIgnoresLater(t.readings, r, a, n - 1);
      SumIgnoresLater(t.readings, r, a, n - 1);
      if Delta(t.h.last, r.wall, r.awake).Some? {
        assert Passes(longer[n - 1], longer[n]);
        forall k | a < k <= n
          ensures Passes(longer[k - 1], longer[k])
        {
          if k < n {
            assert Unbroken(longer, a, n - 1);
          }
        }
      } else {
        assert !Passes(longer[n - 1], longer[n]);
      }
    } else if n > 0 {
      assert !Passes(longer[n - 1], longer[n]);
    }
  }

  lemma {:induction false} SatAddTwice(a: nat, b: nat, c: nat)
    ensures SatAdd(SatAdd(a, b), c) == SatAdd(a, b + c)
  {}

  /** The middle of a record: nothing is pruned, the reading is taken, a point may be stored. */
  function Taken(t: Trace, r: Reading, store: bool): Trace {
    var delta := Delta(t.h.last, r.wall, r.awake);
    var seen := t.h.(active := SatAdd(t.h.active, delta.GetOr(0)), last := Some((r.wall, r.awake)));
    var point := PointOf(seen, r, delta.Some? && t.h.points != []);
    Trace(seen.(points := seen.points + (if store then [point] else [])),
          t.readings + [r],
          t.stamps + (if store then [|t.readings|] else []))
  }

  lemma {:induction false} TakenWithoutStoring(t: Trace, r: Reading)
    requires Sound(t) && r.available && t.h.points != [] && Delta(t.h.last, r.wall, r.awake).Some?
    ensures Sound(Taken(t, r, false))
  {
    var after := Taken(t, r, false);
    var m := |t.stamps| - 1;
    LinksIgnoreLater(t, after, r);
    RunGrows(t, r, t.stamps[m]);
    SatAddTwice(t.h.points[m].active, AwakeSum(t.readings, t.stamps[m], |t.readings| - 1),
                Delta(t.h.last, r.wall, r.awake).value);
  }

  lemma {:induction false} TakenAndStored(t: Trace, r: Reading)
    requires Sound(t) && r.available
    ensures Sound(Taken(t, r, true))
  {
    var after := Taken(t, r, true);
    var n, m := |t.readings|, |t.stamps|;
    var same := Trace(t.h, after.readings, t.stamps);
    LinksIgnoreLater(t, same, r);
    assert Unbroken(after.readings, n, n) && AwakeSum(after.readings, n, n) == 0;
    assert after.stamps[m] == n && after.h.points[m].active == after.h.active;
    forall i | 0 < i < |after.stamps|
      ensures Linked(after, i)
    {
      if i < m {
        assert Linked(same, i);
        assert after.h.points[i] == t.h.points[i] && after.h.points[i - 1] == t.h.points[i - 1];
        assert after.stamps[i] == t.stamps[i] && after.stamps[i - 1] == t.stamps[i - 1];
      } else {
        RunGrows(t, r, t.stamps[m - 1]);
        assert after.h.points[m - 1] == t.h.points[m - 1] && after.stamps[m - 1] == t.stamps[m - 1];
        if Delta(t.h.last, r.wall, r.awake).Some? {
          SatAddTwice(t.h.points[m - 1].active, AwakeSum(t.readings, t.stamps[m - 1], n - 1),
                      Delta(t.h.last, r.wall, r.awake).value);
        }
      }
    }
  }

  lemma {:induction false} ObserveKeepsSound(t: Trace, r: Reading)
    requires Sound(t)
    ensures Sound(Observe(t, r))
  {
    if !r.available {
      UnavailableKeepsSound(t, r);
    } else {
      var p := PruneTrace(t, r.wall);
      PruneKeepsSound(t, r.wall);
      PruneDrops(t.h, r.wall);
      var after := Observe(t, r);
      var (h, stored) := Record(t.h, r);
      if stored {
        TakenAndStored(p, r);
        StoredIsSuffix(t, r);
      } else {
        TakenWithoutStoring(p, r);
        SuffixSound(Taken(p, r, false), after, 0);
      }
    }
  }

  lemma {:induction false} PruneAfterStoring(
    taken: Trace, whole: History, now: nat, current: Option<Point>, all: seq<int>)
    requires Sound(taken)
    requires whole.points == taken.h.points && whole.active == taken.h.active && whole.last == taken.h.last
    requires |taken.stamps| <= |all| && taken.stamps == all[|all| - |taken.stamps|..]
    ensures Sound(Trace(Prune(whole, now).(current := current), taken.readings, LastN(all, |Prune(whole, now).points|)))
  {
    PruneDrops(whole, now);
    var n: nat :| n <= |whole.points| && Prune(whole, now).points == whole.points[n..];
    var after := Trace(Prune(whole, now).(current := current), taken.readings, LastN(all, |Prune(whole, now).points|));
    assert after.stamps == taken.stamps[n..];
    SuffixSound(taken, after, n);
  }

  lemma {:induction false} SuffixAndLast(stamps: seq<int>, n: nat, last: int)
    requires n <= |stamps|
    ensures stamps[n..] + [last] == (stamps + [last])[n..]
  {}

  lemma {:induction false} StoredIsSuffix(t: Trace, r: Reading)
    requires Sound(t) && r.available && Record(t.h, r).1
    requires Sound(Taken(PruneTrace(t, r.wall), r, true))
    ensures Sound(Observe(t, r))
  {
    var p := PruneTrace(t, r.wall);
    PruneDrops(t.h, r.wall);
    var n: nat :| n <= |t.h.points| && p.h.points == t.h.points[n..];
    assert p.stamps == t.stamps[n..];
    var taken := Taken(p, r, true);
    var whole := Noted(p.h, r).(points := taken.h.points, energy := None);
    var all := t.stamps + [|t.readings|];
    SuffixAndLast(t.stamps, n, |t.readings|);
    assert taken.stamps == p.stamps + [|t.readings|];
    PruneAfterStoring(taken, whole, r.wall, Record(t.h, r).0.current, all);
  }

  // ---------------------------------------------------------------- order and energy

  /** Active times never decrease along the deque, nor does the clock fall behind it. */
  ghost predicate OnAxis(h: History) {
    && Ordered(h.points)
    && h.active <= U64_MAX
    && forall i :: 0 <= i < |h.points| ==> h.points[i].active <= h.active
  }

  /** Times are 64-bit, as any file holds them. */
  predicate Bounded(h: History) {
    h.active <= U64_MAX && forall i :: 0 <= i < |h.points| ==> h.points[i].active <= U64_MAX
  }

  ghost predicate EnergyFresh(h: History) {
    h.energy.Some? ==> h.energy.value == EnergyOf(Rebased(h.points))
  }

  /** What every history keeps, and what those with ordered times keep besides. */
  ghost predicate Keeps(h: History, later: History) {
    && (Bounded(h) && EnergyFresh(h) ==> Bounded(later) && EnergyFresh(later))
    && (OnAxis(h) ==> OnAxis(later))
  }

  lemma {:induction false} PruneKeepsAxis(h: History, now: nat)
    ensures Keeps(h, Prune(h, now))
    decreases |h.points|
  {
    if h.points != [] && h.points[0].timestamp < MonusNat(now, RETENTION) {
      PruneKeepsAxis(h.(points := h.points[1..], energy := None), now);
    }
  }

  lemma {:induction false} RecordKeepsAxis(h: History, r: Reading)
    ensures Keeps(h, Record(h, r).0)
  {
    if r.available {
      PruneKeepsAxis(h, r.wall);
      var pruned := Prune(h, r.wall);
      if Samples(pruned, r) {
        StoringKeepsAxis(Noted(pruned, r), r, Delta(pruned.last, r.wall, r.awake).Some? && pruned.points != []);
      }
    }
  }

  lemma {:induction false} StoringKeepsAxis(seen: History, r: Reading, continuous: bool)
    ensures var whole := seen.(points := seen.points + [PointOf(seen, r, continuous)], energy := None);
      && (Bounded(seen) ==> Bounded(Prune(whole, r.wall)) && EnergyFresh(Prune(whole, r.wall)))
      && (OnAxis(seen) ==> OnAxis(Prune(whole, r.wall)))
  {
    var whole := seen.(points := seen.points + [PointOf(seen, r, continuous)], energy := None);
    PruneKeepsAxis(whole, r.wall);
  }

  lemma {:induction false} RebasedBounded(points: seq<Point>)
    ensures forall i :: 0 <= i < |points| ==> Rebased(points)[i].active <= points[i].active
    ensures Ordered(points) ==> Ordered(Rebased(points))
  {}

  // ---------------------------------------------------------------- runs

  /** A reading arrives, or the history is asked for. */
  datatype Event = Saw(reading: Reading) | Asked(now: nat)

  function After(t: Trace, e: Event): Trace {
    match e
    case Saw(r) => Observe(t, r)
    case Asked(now) =>
      var pruned := PruneTrace(t, now);
      pruned.(h := Published(pruned.h))
  }

  function Run(t: Trace, events: seq<Event>): Trace
    decreases |events|
  {
    if events == [] then t else Run(After(t, events[0]), events[1..])
  }

  lemma {:induction false} AfterKeepsSound(t: Trace, e: Event)
    requires Sound(t)
    ensures Sound(After(t, e))
  {
    match e
    case Saw(r) => ObserveKeepsSound(t, r);
    case Asked(now) =>
      PruneKeepsSound(t, now);
      SuffixSound(PruneTrace(t, now), After(t, e), 0);
  }

  /** In every run, each recorded point is continuous exactly when nothing broke since the one
      before it, and then their active times differ by the awake time between them. */
  lemma {:induction false} RunSound(t: Trace, events: seq<Event>)
    requires Sound(t)
    ensures Sound(Run(t, events))
    decreases |events|
  {
    if events != [] {
      AfterKeepsSound(t, events[0]);
      RunSound(After(t, events[0]), events[1..]);
    }
  }

  lemma {:induction false} StartSound(points: seq<Point>, lastCharge: nat, now: nat)
    ensures Sound(Start(points, lastCharge, now))
  {
    PruneDrops(Unpruned(points, lastCharge), now);
  }

  /** Any file gives a bounded history without a stale cache, and active times that run on exactly when
      those of the points it still holds at load time are ordered. */
  lemma {:induction false} StartOnAxis(points: seq<Point>, lastCharge: nat, now: nat)
    requires forall i :: 0 <= i < |points| ==> points[i].active <= U64_MAX
    ensures var h := Loaded(points, lastCharge, now);
      Bounded(h) && EnergyFresh(h) && (OnAxis(h) <==> Ordered(points[Expired(points, now)..]))
  {
    var whole := Unpruned(points, lastCharge);
    PruneKeepsAxis(whole, now);
    PruneDrops(whole, now);
    PruneDropsExpired(whole, now);
  }

  /** A file of two recent points whose times run backwards is loaded as it is. */
  lemma {:induction false} UnorderedFile(p: Point, now: nat)
    requires p.active == 5 && p.timestamp >= MonusNat(now, RETENTION)
    ensures Loaded([p, p.(active := 3)], 0, now).points == [p, p.(active := 3)]
    ensures !OnAxis(Loaded([p, p.(active := 3)], 0, now))
  {
    var points := [p, p.(active := 3)];
    assert points[1].active < points[0].active;
  }

  /** In every run a cached energy is the recomputed one, and ordered active times stay ordered. */
  lemma {:induction false} RunOnAxis(t: Trace, events: seq<Event>)
    requires Bounded(t.h) && EnergyFresh(t.h)
    ensures Bounded(Run(t, events).h) && EnergyFresh(Run(t, events).h)
    ensures OnAxis(t.h) ==> OnAxis(Run(t, events).h)
    decreases |events|
  {
    if events != [] {
      match events[0] {
        case Saw(r) => RecordKeepsAxis(t.h, r);
        case Asked(now) => PruneKeepsAxis(t.h, now);
      }
      RunOnAxis(After(t, events[0]), events[1..]);
    }
  }

  lemma {:induction false} DurationBounded(points: seq<Point>, bound: nat)
    requires forall i :: 0 <= i < |points| ==> points[i].active <= bound
    ensures Duration(points) <= bound
    ensures Extent(points).Some? ==> Extent(points).value.1 <= bound
  {
    if points != [] {
      DurationBounded(points[..|points| - 1], bound);
    }
  }

  /** Whatever is published carries exactly the energy of the accepted segments; with ordered times it
      observes at most its interval per bar and its axis in all. */
  lemma {:induction false} PublishedEnergy(h: History)
    requires Bounded(h) && EnergyFresh(h)
    ensures Published(h).energy.Some?
    ensures var e := Published(h).energy.value;
      && e == EnergyOf(Rebased(h.points))
      && AllValid(Segments(Rebased(h.points), Origin(Rebased(h.points))))
      && e.total == TotalEnergy(Segments(Rebased(h.points), Origin(Rebased(h.points))))
      && (OnAxis(h) ==>
            && e.observed <= e.duration
            && forall k :: 0 <= k < |e.bars| ==> e.bars[k].observed <= e.interval)
  {
    RebasedBounded(h.points);
    DurationBounded(Rebased(h.points), U64_MAX);
    EnergyConserved(Rebased(h.points));
    if OnAxis(h) {
      OrderedObservation(Rebased(h.points));
    }
  }

  // ---------------------------------------------------------------- legacy points

  function LegacyDelta(previous: Option<nat>, timestamp: nat): Option<nat> {
    if previous.Some? && previous.value <= timestamp && timestamp - previous.value <= LEGACY_GAP
    then Some(timestamp - previous.value) else None
  }

  /** Points of an old file placed on the active axis: wall gaps within reach count as active time. */
  function Migrated(points: seq<Point>): (placed: seq<Point>)
    ensures |placed| == |points|
    ensures forall i :: 0 <= i < |points| ==>
      placed[i] == points[i].(active := placed[i].active, continuous := placed[i].continuous)
  {
    if points == [] then []
    else
      var n := |points| - 1;
      var rest := Migrated(points[..n]);
      var delta := LegacyDelta(if n == 0 then None else Some(points[n - 1].timestamp), points[n].timestamp);
      var before := if n == 0 then 0 else rest[n - 1].active;
      rest + [points[n].(continuous := delta.Some?, active := SatAdd(before, delta.GetOr(0)))]
  }

  function Placed(p: Point, delta: Option<nat>, active: nat): Point {
    p.(continuous := delta.Some?, active := active)
  }

  /** Each point is placed after the one before it. */
  lemma {:induction false} MigratedAt(points: seq<Point>, i: nat)
    requires i < |points|
    ensures var placed := Migrated(points);
      var delta := LegacyDelta(if i == 0 then None else Some(points[i - 1].timestamp), points[i].timestamp);
      placed[i] == Placed(points[i], delta, SatAdd(if i == 0 then 0 else placed[i - 1].active, delta.GetOr(0)))
  {
    var n := |points| - 1;
    if i < n {
      MigratedAt(points[..n], i);
    }
  }

  lemma {:induction false} AdjacentOrdered(points: seq<Point>, i: nat, j: nat)
    requires i < j < |points|
    requires forall k :: 0 < k < |points| ==> points[k - 1].active <= points[k].active
    ensures points[i].active <= points[j].active
    decreases j - i
  {
    if i + 1 < j {
      AdjacentOrdered(points, i, j - 1);
    }
  }

  /** Every old file is placed in order on the active axis. */
  lemma {:induction false} MigratedOrdered(points: seq<Point>)
    ensures Ordered(Migrated(points))
    ensures forall i :: 0 <= i < |points| ==> Migrated(points)[i].active <= U64_MAX
  {
    var placed := Migrated(points);
    forall i | 0 <= i < |points| ensures placed[i].active <= U64_MAX {
      MigratedAt(points, i);
    }
    forall k | 0 < k < |points| ensures placed[k - 1].active <= placed[k].active {
      MigratedAt(points, k);
    }
    forall i, j | 0 <= i < j < |placed| ensures placed[i].active <= placed[j].active {
      AdjacentOrdered(placed, i, j);
    }
  }

  /** A migrated point is continuous exactly when its wall gap is within reach, and then lies that gap later. */
  lemma {:induction false} MigratedGaps(points: seq<Point>, i: nat)
    requires 0 < i < |points|
    ensures var placed := Migrated(points);
      && (placed[i].continuous <==>
            points[i - 1].timestamp <= points[i].timestamp <= points[i - 1].timestamp + 17 * 60 * 1000)
      && (placed[i].continuous ==>
            placed[i].active == SatAdd(placed[i - 1].active, points[i].timestamp - points[i - 1].timestamp))
  {
    MigratedAt(points, i);
  }

  /** Migrates in place, one point after the other. */
  method MigrateLegacyPoints(points: array<Point>)
    modifies points
    ensures points[..] == Migrated(old(points[..]))
  {
    var active := 0;
    var previous: Option<nat> := None;
    ghost var before := points[..];
    ghost var placed := Migrated(before);
    var i := 0;
    while i < points.Length
      invariant 0 <= i <= points.Length
      invariant forall k :: 0 <= k < i ==> points[k] == placed[k]
      invariant forall k :: i <= k < points.Length ==> points[k] == before[k]
      invariant active == if i == 0 then 0 else placed[i - 1].active
      invariant previous == if i == 0 then None else Some(before[i - 1].timestamp)
    {
      MigratedAt(before, i);
      var delta := LegacyDelta(previous, points[i].timestamp);
      active := SatAdd(active, delta.GetOr(0));
      previous := Some(points[i].timestamp);
      points[i] := Placed(points[i], delta, active);
      i := i + 1;
    }
  }
}
