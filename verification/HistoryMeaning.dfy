/** What the recorder keeps of the readings it is given, and the energy that comes of them. */
module HistoryMeaning {
  import opened Outcomes
  import opened EnergyBins
  import opened EnergyTheorems
  import opened EnergyMeaning
  import opened BatteryHistory

  // ---------------------------------------------------------------- points from readings

  /** A recorded power is the nearest hundredth of a watt, the upper one of two; below zero it is zero. */
  lemma {:induction false} RoundedNearest(w: real) returns (hundredths: nat)
    ensures w < 0.0 ==> Rounded(w) == 0.0
    ensures w >= 0.0 ==> -0.005 < Rounded(w) - w <= 0.005
    ensures Rounded(w) == hundredths as real / 100.0
  {
    hundredths := 0;
    if w >= 0.0 {
      hundredths := (w * 100.0 + 0.5).Floor;
      assert hundredths as real <= w * 100.0 + 0.5 < hundredths as real + 1.0;
    }
  }

  /** The point shows what the reading said. */
  predicate Shows(p: Point, r: Reading) {
    && p.timestamp == r.wall && p.percentage == r.percentage && p.plugged == r.plugged && p.charging == r.charging
    && p.watts == Rounded(r.watts)
    && p.mode == (if r.charging then "charging" else if r.plugged then "holding" else "discharging")
    && (OnBattery(p) <==> !r.plugged && !r.charging)
    && (Measured(p) <==> r.powerAvailable && r.watts >= 0.0)
    && p.timeToFull == (if r.charging && r.timeToFull > 0 then Some(r.timeToFull) else None)
  }

  lemma {:induction false} PointShows(h: History, r: Reading, continuous: bool)
    ensures Shows(PointOf(h, r, continuous), r)
  {
    var k := RoundedNearest(r.watts);
  }

  /** Every stored point that came from a reading shows that reading. */
  ghost predicate Sampled(t: Trace) {
    && |t.stamps| == |t.h.points|
    && forall i :: 0 <= i < |t.stamps| && t.stamps[i] >= 0 ==>
         && t.stamps[i] < |t.readings| && t.readings[t.stamps[i]].available
         && Shows(t.h.points[i], t.readings[t.stamps[i]])
  }

  lemma {:induction false} SuffixSampled(t: Trace, later: Trace, n: nat)
    requires Sampled(t) && n <= |t.stamps| && t.readings <= later.readings
    requires later.h.points == t.h.points[n..] && later.stamps == t.stamps[n..]
    ensures Sampled(later)
  {}

  lemma {:induction false} PruneSampled(t: Trace, now: nat)
    requires Sampled(t)
    ensures Sampled(PruneTrace(t, now))
  {
    PruneDrops(t.h, now);
    var n: nat :| n <= |t.h.points| && Prune(t.h, now).points == t.h.points[n..];
    SuffixSampled(t, PruneTrace(t, now), n);
  }

  /** A trace with one more reading and the point it gave. */
  function Appended(t: Trace, r: Reading, point: Point): Trace {
    Trace(t.h.(points := t.h.points + [point]), t.readings + [r], t.stamps + [|t.readings|])
  }

  lemma {:induction false} AppendSampled(t: Trace, r: Reading, point: Point)
    requires Sampled(t) && r.available && Shows(point, r)
    ensures Sampled(Appended(t, r, point))
  {
    var after := Appended(t, r, point);
    forall i | 0 <= i < |after.stamps| && after.stamps[i] >= 0
      ensures after.stamps[i] < |after.readings| && after.readings[after.stamps[i]].available
      ensures Shows(after.h.points[i], after.readings[after.stamps[i]])
    {
      if i < |t.stamps| {
        assert after.stamps[i] == t.stamps[i];
      }
    }
  }

  lemma {:induction false} SuffixOfSuffix<T>(a: seq<T>, n: nat, x: T, m: nat)
    requires n <= |a| && m <= |a| - n + 1
    ensures (a[n..] + [x])[m..] == (a + [x])[n + m..]
  {
    assert a[n..] + [x] == (a + [x])[n..];
  }

  /** The point a reading gives. */
  function NewPoint(h: History, r: Reading): Point {
    var p := Prune(h, r.wall);
    PointOf(Noted(p, r), r, Delta(p.last, r.wall, r.awake).Some? && p.points != [])
  }

  /** The points after a reading is stored are a suffix of those before with the new one. */
  lemma {:induction false} StoredPoints(h: History, r: Reading) returns (k: nat)
    requires r.available && Record(h, r).1
    ensures k <= |h.points| + 1 && Record(h, r).0.points == (h.points + [NewPoint(h, r)])[k..]
  {
    var p, point := Prune(h, r.wall), NewPoint(h, r);
    PruneDropsExpired(h, r.wall);
    var n := Expired(h.points, r.wall);
    var whole := Noted(p, r).(points := p.points + [point], energy := None);
    PruneDropsExpired(whole, r.wall);
    var m := Expired(whole.points, r.wall);
    SuffixOfSuffix(h.points, n, point, m);
    assert Record(h, r).0.points == Prune(whole, r.wall).points;
    k := n + m;
  }

  lemma {:induction false} StoredSampled(t: Trace, r: Reading)
    requires Sampled(t) && r.available && Record(t.h, r).1
    ensures Sampled(Observe(t, r))
  {
    var k := StoredPoints(t.h, r);
    var point, p := NewPoint(t.h, r), Prune(t.h, r.wall);
    PointShows(Noted(p, r), r, Delta(p.last, r.wall, r.awake).Some? && p.points != []);
    AppendSampled(t, r, point);
    var all := t.stamps + [|t.readings|];
    var after := Observe(t, r);
    assert |after.h.points| == |all| - k;
    assert after.stamps == all[k..];
    SuffixSampled(Appended(t, r, point), after, k);
  }

  lemma {:induction false} ObserveSampled(t: Trace, r: Reading)
    requires Sampled(t)
    ensures Sampled(Observe(t, r))
  {
    if r.available && Record(t.h, r).1 {
      StoredSampled(t, r);
    } else if r.available {
      PruneDrops(t.h, r.wall);
      var n: nat :| n <= |t.h.points| && Prune(t.h, r.wall).points == t.h.points[n..];
      SuffixSampled(t, Observe(t, r), n);
    } else {
      SuffixSampled(t, Observe(t, r), 0);
    }
  }

  /** In every run each stored point that came from a reading shows it. */
  lemma {:induction false} RunSampled(t: Trace, events: seq<Event>)
    requires Sampled(t)
    ensures Sampled(Run(t, events))
    decreases |events|
  {
    if events != [] {
      match events[0] {
        case Saw(r) => ObserveSampled(t, r);
        case Asked(now) =>
          PruneSampled(t, now);
          SuffixSampled(PruneTrace(t, now), After(t, events[0]), 0);
      }
      RunSampled(After(t, events[0]), events[1..]);
    }
  }

  lemma {:induction false} StartSampled(points: seq<Point>, lastCharge: nat, now: nat)
    ensures Sampled(Start(points, lastCharge, now))
  {}

  // ---------------------------------------------------------------- energy from readings

  /** The reading was taken on battery with a measured power. */
  predicate Drains(r: Reading) {
    !r.plugged && !r.charging && r.powerAvailable && r.watts >= 0.0
  }

  /** Two readings whose points are stored next to each other add energy: both drain the battery, nothing
      broke between them, and wall and awake time both moved on. */
  ghost predicate AddsEnergy(readings: seq<Reading>, a: nat, b: nat)
    requires a < b < |readings|
  {
    && Drains(readings[a]) && Drains(readings[b]) && Unbroken(readings, a, b)
    && 0 < readings[a].wall < readings[b].wall && AwakeSum(readings, a, b) > 0
  }

  lemma {:induction false} RebasedPair(points: seq<Point>, i: nat)
    requires Ordered(points) && 0 < i < |points|
    ensures var p, q := Rebased(points)[i - 1], Rebased(points)[i];
      && (Counts(p, q) <==> Counts(points[i - 1], points[i]))
      && PairTime(p, q) == PairTime(points[i - 1], points[i])
      && PairEnergy(p, q) == PairEnergy(points[i - 1], points[i])
  {
    assert points[0].active <= points[i - 1].active by {
      if i - 1 > 0 {
        assert points[0].active <= points[i - 1].active;
      }
    }
    assert points[0].active <= points[i].active;
  }

  lemma {:induction false} PairFromReadings(p: Point, q: Point, r: Reading, s: Reading, unbroken: bool, awake: nat)
    requires Shows(p, r) && Shows(q, s) && (q.continuous <==> unbroken) && (unbroken ==> q.active == p.active + awake)
    ensures var adds := Drains(r) && Drains(s) && unbroken && 0 < r.wall < s.wall && awake > 0;
      && (Counts(p, q) <==> adds)
      && PairTime(p, q) == (if adds then awake else 0)
      && PairEnergy(p, q)
         == (if adds then (Rounded(r.watts) + Rounded(s.watts)) / 2.0 * awake as real / 3_600_000.0 else 0.0)
  {
    assert Counts(p, q) ==> PairTime(p, q) == awake;
  }

  lemma {:induction false} LinkedPoints(t: Trace, i: nat)
    requires Sound(t) && Sampled(t) && 0 < i < |t.stamps| && t.stamps[i - 1] >= 0 && t.stamps[i] >= 0
    ensures var a, b := t.stamps[i - 1], t.stamps[i];
      var p, q := t.h.points[i - 1], t.h.points[i];
      && a < b < |t.readings| && Shows(p, t.readings[a]) && Shows(q, t.readings[b])
      && (q.continuous <==> Unbroken(t.readings, a, b))
      && (q.continuous ==> q.active == SatAdd(p.active, AwakeSum(t.readings, a, b)))
  {
    assert Linked(t, i);
  }

  /**
   In every run: a pair of adjacent stored points from readings `a` and `b` adds energy exactly when the
   readings do, and then the mean of their recorded powers over the awake time between them.
   */
  lemma {:induction false} RecordedPair(t: Trace, i: nat)
    requires Sound(t) && Sampled(t) && 0 < i < |t.stamps| && t.stamps[i - 1] >= 0 && t.stamps[i] >= 0
    requires t.stamps[i - 1] < t.stamps[i] ==>
      t.h.points[i - 1].active + AwakeSum(t.readings, t.stamps[i - 1], t.stamps[i]) <= U64_MAX
    ensures t.stamps[i - 1] < t.stamps[i] < |t.readings|
    ensures var a, b := t.stamps[i - 1], t.stamps[i];
      var p, q := t.h.points[i - 1], t.h.points[i];
      var awake := AwakeSum(t.readings, a, b);
      && (Counts(p, q) <==> AddsEnergy(t.readings, a, b))
      && PairTime(p, q) == (if AddsEnergy(t.readings, a, b) then awake else 0)
      && PairEnergy(p, q)
         == (if AddsEnergy(t.readings, a, b)
             then (Rounded(t.readings[a].watts) + Rounded(t.readings[b].watts)) / 2.0 * awake as real / 3_600_000.0
             else 0.0)
  {
    LinkedPoints(t, i);
    var a, b := t.stamps[i - 1], t.stamps[i];
    var p, q := t.h.points[i - 1], t.h.points[i];
    PairFromReadings(p, q, t.readings[a], t.readings[b], Unbroken(t.readings, a, b), AwakeSum(t.readings, a, b));
  }

  /** Publishing moves the axis to its first point and changes no pair. */
  lemma {:induction false} RebasedSum(points: seq<Point>, n: nat)
    requires Ordered(points) && n <= |points|
    ensures SumOfPairs(Rebased(points)[..n]) == SumOfPairs(points[..n])
  {
    if n >= 2 {
      RebasedSum(points, n - 1);
      assert Rebased(points)[..n][..n - 1] == Rebased(points)[..n - 1] && points[..n][..n - 1] == points[..n - 1];
      RebasedPair(points, n - 1);
    }
  }

  /** What is published is the sum over the pairs of stored points. */
  lemma {:induction false} PublishedPairs(h: History)
    requires Bounded(h) && EnergyFresh(h)
    ensures Published(h).energy.Some?
    ensures Published(h).energy.value.total == SumOfPairs(Rebased(h.points))
    ensures OnAxis(h) ==> Published(h).energy.value.total == SumOfPairs(h.points)
  {
    TotalIsPairs(Rebased(h.points));
    if OnAxis(h) {
      RebasedSum(h.points, |h.points|);
      assert Rebased(h.points)[..|h.points|] == Rebased(h.points) && h.points[..|h.points|] == h.points;
    }
  }

  // ---------------------------------------------------------------- what is stored

  predicate NewestKept(h: History, now: nat) {
    h.points != [] && h.points[|h.points| - 1].timestamp >= MonusNat(now, RETENTION)
  }

  lemma {:induction false} PruneKeepsRecent(h: History, now: nat)
    requires NewestKept(h, now)
    ensures Prune(h, now).points != []
    ensures Prune(h, now).points[|Prune(h, now).points| - 1] == h.points[|h.points| - 1]
    decreases |h.points|
  {
    if h.points[0].timestamp < MonusNat(now, RETENTION) {
      PruneKeepsRecent(h.(points := h.points[1..], energy := None), now);
    }
  }

  /** After every available reading the newest stored point is of the same quarter of an hour and shows the
      same connection and charging; the reading itself is the current point. */
  lemma {:induction false} NewestPointIsCurrent(h: History, r: Reading)
    requires r.available
    ensures var after := Record(h, r).0;
      && after.current.Some? && Shows(after.current.value, r)
      && after.points != []
      && var newest := after.points[|after.points| - 1];
         newest.timestamp / QUARTER == r.wall / QUARTER && newest.plugged == r.plugged && newest.charging == r.charging
  {
    var p := Prune(h, r.wall);
    var noted := Noted(p, r);
    var continuous := Delta(p.last, r.wall, r.awake).Some? && p.points != [];
    var point := PointOf(noted, r, continuous);
    PointShows(noted, r, continuous);
    if Samples(p, r) {
      PruneKeepsRecent(noted.(points := noted.points + [point], energy := None), r.wall);
    } else {
      SameBucket(p.points[|p.points| - 1].timestamp, r.wall);
    }
  }

  lemma {:induction false} SameBucket(a: nat, b: nat)
    requires BucketOf(a) == BucketOf(b)
    ensures a / QUARTER == b / QUARTER
  {}

  /** The last charge is dated when a reading on battery follows a stored point on power, and by no other
      reading once it is known. */
  lemma {:induction false} LastChargeMeans(h: History, r: Reading)
    ensures !r.available || r.plugged ==> Record(h, r).0.lastCharge == h.lastCharge
    ensures r.available && !r.plugged && h.lastCharge == 0 ==> Record(h, r).0.lastCharge == r.wall
    ensures r.available && !r.plugged && h.lastCharge > 0 && NewestKept(h, r.wall) ==>
      Record(h, r).0.lastCharge == (if h.points[|h.points| - 1].plugged then r.wall else h.lastCharge)
  {
    PruneDrops(h, r.wall);
    if NewestKept(h, r.wall) {
      PruneKeepsRecent(h, r.wall);
    }
    var noted := Noted(Prune(h, r.wall), r);
    PruneDrops(noted.(points := noted.points
      + [PointOf(noted, r, Delta(h.last, r.wall, r.awake).Some? && Prune(h, r.wall).points != [])], energy := None),
      r.wall);
  }

  // ---------------------------------------------------------------- clocks and age

  /** Two readings follow each other without a break: both available, no clock going back, at most two minutes
      awake, and the two clocks within a second of each other. */
  lemma {:induction false} PassesMeans(r: Reading, s: Reading)
    ensures var awake := if s.awake >= r.awake then (s.awake - r.awake) / 1_000_000 else 0;
      Passes(r, s) <==>
        && r.available && s.available && r.wall <= s.wall && r.awake <= s.awake && awake <= 120_000
        && -1000 <= s.wall - r.wall - awake <= 1000
  {}

  /** The awake time of one step is in whole milliseconds. */
  lemma {:induction false} AwakeStep(readings: seq<Reading>, a: nat)
    requires a + 1 < |readings| && Passes(readings[a], readings[a + 1])
    ensures AwakeSum(readings, a, a + 1) == (readings[a + 1].awake - readings[a].awake) / 1_000_000
  {
    assert AwakeSum(readings, a, a) == 0;
  }

  /** Pruning drops the leading points that are more than a week old, and stops at the first that is not. */
  lemma {:induction false} AWeekIsKept(points: seq<Point>, now: nat)
    ensures var n, week := Expired(points, now), 7 * 24 * 60 * 60 * 1000;
      && (forall i :: 0 <= i < n ==> points[i].timestamp + week < now)
      && (n < |points| ==> points[n].timestamp + week >= now)
    decreases |points|
  {
    if points != [] && points[0].timestamp < MonusNat(now, RETENTION) {
      AWeekIsKept(points[1..], now);
    }
  }
}
