/** What the energy history says of the points it is made from: which pairs count, for how much, and where. */
module EnergyMeaning {
  import opened Outcomes
  import opened EnergyBins
  import opened EnergyTheorems

  /** A quarter of an hour, and an hour, in milliseconds. */
  const QUARTER := 15 * 60 * 1000
  const HOUR := 3_600_000.0

  // ---------------------------------------------------------------- which pairs count

  /** The point was taken on battery: its mode says so, or, without a mode, it was neither charging nor plugged. */
  predicate OnBattery(p: Point) {
    if p.mode == "" then !(p.charging || p.plugged) else p.mode == "discharging"
  }

  /** Its power is a measurement: marked as valid, or unmarked and positive. */
  predicate Measured(p: Point) {
    p.watts >= 0.0 && (if p.powerValid.Some? then p.powerValid.value else p.watts > 0.0)
  }

  /** Two adjacent points count when both are measured on battery, the second follows the first without a
      break, and both clocks moved on. */
  predicate Counts(p: Point, q: Point) {
    && OnBattery(p) && OnBattery(q) && Measured(p) && Measured(q)
    && q.continuous && 0 < p.timestamp < q.timestamp && p.active < q.active
  }

  function PairTime(p: Point, q: Point): nat {
    if Counts(p, q) then q.active - p.active else 0
  }

  /** The mean of the two powers over the active time between them, in watt-hours. */
  function PairEnergy(p: Point, q: Point): real {
    (p.watts + q.watts) / 2.0 * PairTime(p, q) as real / HOUR
  }

  function SumOfPairs(points: seq<Point>): real {
    if |points| < 2 then 0.0
    else
      var n := |points| - 1;
      SumOfPairs(points[..n]) + PairEnergy(points[n - 1], points[n])
  }

  function TimeOfPairs(points: seq<Point>): nat {
    if |points| < 2 then 0
    else
      var n := |points| - 1;
      TimeOfPairs(points[..n]) + PairTime(points[n - 1], points[n])
  }

  lemma {:induction false} CountsExactly(p: Point, q: Point, origin: nat)
    requires p.timestamp > 0 ==> origin <= p.active
    ensures Between(p, q, origin).Some? <==> Counts(p, q)
    ensures Counts(p, q) ==>
      Between(p, q, origin).value == Segment(p.active - origin, q.active - origin, p.watts, q.watts)
  {}

  lemma {:induction false} TotalAppend(segments: seq<Segment>, s: Segment)
    requires AllValid(segments) && s.start < s.end
    ensures AllValid(segments + [s])
    ensures TotalEnergy(segments + [s]) == TotalEnergy(segments) + Trapezoid(s)
    ensures TotalLength(segments + [s]) == TotalLength(segments) + (s.end - s.start)
  {
    assert (segments + [s])[..|segments|] == segments;
  }

  lemma {:induction false} PairIsTrapezoid(p: Point, q: Point, origin: nat)
    requires Counts(p, q) && origin <= p.active
    ensures var s := Segment(p.active - origin, q.active - origin, p.watts, q.watts);
      Trapezoid(s) == PairEnergy(p, q) && s.end - s.start == PairTime(p, q)
  {}

  lemma {:induction false} PairsAreSegments(prefix: seq<Point>, points: seq<Point>)
    requires prefix <= points
    ensures var segments := Segments(prefix, Origin(points));
      AllValid(segments) && TotalEnergy(segments) == SumOfPairs(prefix) && TotalLength(segments) == TimeOfPairs(prefix)
  {
    if |prefix| >= 2 {
      var n := |prefix| - 1;
      var p, q, origin := prefix[n - 1], prefix[n], Origin(points);
      PairsAreSegments(prefix[..n], points);
      if p.timestamp > 0 {
        ExtentBounds(points, n - 1);
      }
      CountsExactly(p, q, origin);
      var before := Segments(prefix[..n], origin);
      if Counts(p, q) {
        PairIsTrapezoid(p, q, origin);
        TotalAppend(before, Segment(p.active - origin, q.active - origin, p.watts, q.watts));
      } else {
        assert before + [] == before;
      }
    }
  }

  /** The total is the energy of the pairs that count, and the observed time theirs, for every list of points. */
  lemma {:induction false} TotalIsPairs(points: seq<Point>)
    ensures EnergyOf(points).total == SumOfPairs(points)
    ensures TimeOfPairs(points) <= U64_MAX ==> EnergyOf(points).observed == TimeOfPairs(points)
  {
    EnergyConserved(points);
    PairsAreSegments(points, points);
  }

  // ---------------------------------------------------------------- where it is drawn

  /** How much of the time from `start` to `end` lies between `low` and `high`. */
  function Overlap(start: nat, end: nat, low: nat, high: nat): nat {
    var a, b := if start > low then start else low, if end < high then end else high;
    if a < b then b - a else 0
  }

  function OverlapOfPairs(points: seq<Point>, origin: nat, low: nat, high: nat): nat {
    if |points| < 2 then 0
    else
      var n := |points| - 1;
      var p, q := points[n - 1], points[n];
      OverlapOfPairs(points[..n], origin, low, high)
      + (if Counts(p, q) && origin <= p.active then Overlap(p.active - origin, q.active - origin, low, high) else 0)
  }

  lemma {:induction false} TimesOverlap(prefix: seq<Point>, points: seq<Point>, interval: nat, i: nat)
    requires prefix <= points
    ensures SumTime(Segments(prefix, Origin(points)), interval, i)
         == OverlapOfPairs(prefix, Origin(points), i * interval, (i + 1) * interval)
  {
    if |prefix| >= 2 {
      var n := |prefix| - 1;
      TimesOverlap(prefix[..n], points, interval, i);
      if prefix[n - 1].timestamp > 0 {
        ExtentBounds(points, n - 1);
      }
      CountsExactly(prefix[n - 1], prefix[n], Origin(points));
      var before := Segments(prefix[..n], Origin(points));
      var last := Between(prefix[n - 1], prefix[n], Origin(points));
      if last.Some? {
        assert (before + [last.value])[..|before|] == before;
      } else {
        assert before + [] == before;
      }
    }
  }

  /** The power between two counted points, on the straight line from one to the other. */
  function PowerBetween(p: Point, q: Point, t: real): real
    requires p.active < q.active
  {
    p.watts + (q.watts - p.watts) * (t - p.active as real) / (q.active - p.active) as real
  }

  /** The energy of a counted pair between two times on the axis. */
  function EnergyIn(p: Point, q: Point, origin: nat, low: nat, high: nat): real
    requires Counts(p, q) && origin <= p.active
  {
    var a := if p.active - origin > low then p.active - origin else low;
    var b := if q.active - origin < high then q.active - origin else high;
    if a < b
    then (PowerBetween(p, q, (a + origin) as real) + PowerBetween(p, q, (b + origin) as real)) / 2.0
         * (b - a) as real / HOUR
    else 0.0
  }

  function EnergyOfPairs(points: seq<Point>, origin: nat, low: nat, high: nat): real {
    if |points| < 2 then 0.0
    else
      var n := |points| - 1;
      var p, q := points[n - 1], points[n];
      EnergyOfPairs(points[..n], origin, low, high)
      + (if Counts(p, q) && origin <= p.active then EnergyIn(p, q, origin, low, high) else 0.0)
  }

  lemma {:induction false} PowersAgree(p: Point, q: Point, origin: nat, t: nat)
    requires Counts(p, q) && origin <= p.active
    ensures PowerAt(Segment(p.active - origin, q.active - origin, p.watts, q.watts), t)
         == PowerBetween(p, q, (t + origin) as real)
  {}

  lemma {:induction false} Halves(x: real, y: real, t: real)
    ensures (x / 2.0 + y / 2.0) * t / HOUR == (x + y) / 2.0 * t / HOUR
  {
    assert x / 2.0 + y / 2.0 == (x + y) / 2.0;
  }

  lemma {:induction false} OneArea(p: Point, q: Point, origin: nat, a: nat, b: nat)
    requires Counts(p, q) && origin <= p.active && a < b
    ensures Area(Segment(p.active - origin, q.active - origin, p.watts, q.watts), a, b)
         == (PowerBetween(p, q, (a + origin) as real) + PowerBetween(p, q, (b + origin) as real)) / 2.0
            * (b - a) as real / HOUR
  {
    PowersAgree(p, q, origin, a);
    PowersAgree(p, q, origin, b);
    Halves(PowerBetween(p, q, (a + origin) as real), PowerBetween(p, q, (b + origin) as real), (b - a) as real);
  }

  lemma {:induction false} OneShare(p: Point, q: Point, origin: nat, interval: nat, i: nat)
    requires Counts(p, q) && origin <= p.active
    ensures Share(Segment(p.active - origin, q.active - origin, p.watts, q.watts), interval, i)
         == EnergyIn(p, q, origin, i * interval, (i + 1) * interval)
  {
    var s := Segment(p.active - origin, q.active - origin, p.watts, q.watts);
    var a, b := From(s, interval, i), To(interval, i, s.end);
    if a < b {
      OneArea(p, q, origin, a, b);
    }
  }

  lemma {:induction false} SharesAre(prefix: seq<Point>, points: seq<Point>, interval: nat, i: nat)
    requires prefix <= points && AllValid(Segments(prefix, Origin(points)))
    ensures SumShare(Segments(prefix, Origin(points)), interval, i)
         == EnergyOfPairs(prefix, Origin(points), i * interval, (i + 1) * interval)
  {
    if |prefix| >= 2 {
      var n := |prefix| - 1;
      SegmentsValid(prefix[..n], points);
      SharesAre(prefix[..n], points, interval, i);
      if prefix[n - 1].timestamp > 0 {
        ExtentBounds(points, n - 1);
      }
      CountsExactly(prefix[n - 1], prefix[n], Origin(points));
      var before := Segments(prefix[..n], Origin(points));
      var last := Between(prefix[n - 1], prefix[n], Origin(points));
      if last.Some? {
        OneShare(prefix[n - 1], prefix[n], Origin(points), interval, i);
        assert (before + [last.value])[..|before|] == before;
      } else {
        assert before + [] == before;
      }
    }
  }

  /** A bar spans one interval of the active axis and holds exactly the counted time and energy in it. */
  ghost predicate Spans(bar: Bin, points: seq<Point>, interval: nat, duration: nat, i: nat)
    requires duration > 0
  {
    var low, high := i * interval, (i + 1) * interval;
    && bar.x0 == low as real / duration as real
    && bar.x1 == (if high < duration then high else duration) as real / duration as real
    && bar.observed == Min(OverlapOfPairs(points, Origin(points), low, high), U64_MAX)
    && bar.value == EnergyOfPairs(points, Origin(points), low, high)
    && bar.observed > 0
  }

  lemma {:induction false} BarsSpan(points: seq<Point>, interval: nat, duration: nat, n: nat, k: nat) returns (i: nat)
    requires 0 < duration <= U64_MAX && AllValid(Segments(points, Origin(points)))
    requires k < |Bars(Segments(points, Origin(points)), interval, duration, n)|
    ensures i < n
    ensures Spans(Bars(Segments(points, Origin(points)), interval, duration, n)[k], points, interval, duration, i)
    decreases n
  {
    var segments := Segments(points, Origin(points));
    if k < |Bars(segments, interval, duration, n - 1)| {
      i := BarsSpan(points, interval, duration, n - 1, k);
    } else {
      i := n - 1;
      TimesOverlap(points, points, interval, i);
      SharesAre(points, points, interval, i);
    }
  }

  /** Every bar of every history is such a bar. */
  lemma {:induction false} BarsMean(points: seq<Point>, k: nat) returns (i: nat)
    requires 0 < Duration(points) <= U64_MAX && k < |EnergyOf(points).bars|
    ensures i < MAX_BARS
    ensures Spans(EnergyOf(points).bars[k], points, EnergyOf(points).interval, EnergyOf(points).duration, i)
  {
    SegmentsValid(points, points);
    i := BarsSpan(points, Interval(Duration(points)), Duration(points), MAX_BARS, k);
  }

  // ---------------------------------------------------------------- intervals and maximum

  /** The interval is the shortest multiple of a quarter of an hour with which 48 bars cover the axis. */
  lemma {:induction false} IntervalIsLeast(duration: nat, quarters: nat)
    requires quarters > 0 && 48 * (quarters * QUARTER) >= duration
    ensures Interval(duration) <= quarters * QUARTER
    ensures Interval(duration) % QUARTER == 0 && 48 * Interval(duration) >= duration
  {
    AxisFits(duration);
    var unit := 48 * QUARTER;
    var c := CeilDiv(duration, unit);
    assert duration <= quarters * unit;
    Ceiling(duration, unit, quarters);
  }

  lemma {:induction false} Ceiling(a: nat, b: nat, q: nat)
    requires b > 0 && a <= q * b
    ensures CeilDiv(a, b) <= q
  {
    var d := a / b;
    assert a == d * b + a % b;
    if d >= q {
      assert d * b >= q * b;
    }
  }

  lemma {:induction false} HighestIs(bars: seq<Bin>)
    ensures forall k :: 0 <= k < |bars| ==> bars[k].value <= Highest(bars)
    ensures Highest(bars) == 0.0 || exists k :: 0 <= k < |bars| && bars[k].value == Highest(bars)
  {
    if bars != [] {
      var n := |bars| - 1;
      HighestIs(bars[..n]);
      if Highest(bars[..n]) != 0.0 {
        var k :| 0 <= k < n && bars[..n][k].value == Highest(bars[..n]);
        assert bars[k].value == Highest(bars[..n]);
      }
    }
  }
}
