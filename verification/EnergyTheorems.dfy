/** Conservation and layout of the binned energy history. */
module EnergyTheorems {
  import opened Outcomes
  import opened EnergyBins

  // ---------------------------------------------------------------- one segment

  function WindowSum(s: Segment, interval: nat, n: nat): real
    requires s.start < s.end
  {
    if n == 0 then 0.0 else WindowSum(s, interval, n - 1) + Share(s, interval, n - 1)
  }

  function WindowTime(s: Segment, interval: nat, n: nat): nat {
    if n == 0 then 0 else WindowTime(s, interval, n - 1) + Time(s, interval, n - 1)
  }

  /** The energy of a segment before a given time. */
  function AreaBefore(s: Segment, t: nat): real
    requires s.start < s.end
  {
    if s.start < t then Area(s, s.start, t) else 0.0
  }

  lemma {:induction false} WindowsSum(s: Segment, interval: nat, n: nat)
    requires ValidSegment(s)
    ensures WindowSum(s, interval, n) == AreaBefore(s, Min(s.end, n * interval))
    ensures WindowTime(s, interval, n) == MonusNat(Min(s.end, n * interval), s.start)
  {
    if n > 0 {
      WindowsSum(s, interval, n - 1);
      AddWindow(s, (n - 1) * interval, n * interval);
      assert From(s, interval, n - 1) == Max(s.start, (n - 1) * interval);
      assert To(interval, n - 1, s.end) == Min(s.end, n * interval);
    }
  }

  /** The window from `low` to `high` carries the energy on from one boundary to the next. */
  lemma {:induction false} AddWindow(s: Segment, low: nat, high: nat)
    requires ValidSegment(s) && low <= high
    ensures var a, b := Max(s.start, low), Min(s.end, high);
      && AreaBefore(s, Min(s.end, high)) == AreaBefore(s, Min(s.end, low)) + (if a < b then Area(s, a, b) else 0.0)
      && MonusNat(Min(s.end, high), s.start) == MonusNat(Min(s.end, low), s.start) + MonusNat(b, a)
  {
    AreaSplits(s, s.start, Min(s.end, low), Min(s.end, high));
  }

  // ---------------------------------------------------------------- all segments

  function TotalEnergy(segments: seq<Segment>): real
    requires forall k :: 0 <= k < |segments| ==> segments[k].start < segments[k].end
  {
    if segments == [] then 0.0
    else
      var s := segments[|segments| - 1];
      TotalEnergy(segments[..|segments| - 1]) + Trapezoid(s)
  }

  /** The energy between two samples: their mean power over their distance. */
  function Trapezoid(s: Segment): real {
    (s.startWatts + s.endWatts) / 2.0 * (s.end - s.start) as real / MS_PER_HOUR
  }

  function TotalLength(segments: seq<Segment>): nat {
    if segments == [] then 0
    else
      var s := segments[|segments| - 1];
      TotalLength(segments[..|segments| - 1]) + MonusNat(s.end, s.start)
  }

  function GridSum(segments: seq<Segment>, interval: nat, n: nat): real
    requires forall k :: 0 <= k < |segments| ==> segments[k].start < segments[k].end
  {
    if n == 0 then 0.0 else GridSum(segments, interval, n - 1) + SumShare(segments, interval, n - 1)
  }

  function GridTime(segments: seq<Segment>, interval: nat, n: nat): nat {
    if n == 0 then 0 else GridTime(segments, interval, n - 1) + SumTime(segments, interval, n - 1)
  }

  /** Summing window by window and segment by segment is the same. */
  lemma {:induction false} GridSwaps(segments: seq<Segment>, interval: nat, n: nat)
    requires AllValid(segments) && segments != []
    ensures var m := |segments| - 1;
      && GridSum(segments, interval, n) == GridSum(segments[..m], interval, n) + WindowSum(segments[m], interval, n)
      && GridTime(segments, interval, n) == GridTime(segments[..m], interval, n) + WindowTime(segments[m], interval, n)
  {
    if n > 0 {
      GridSwaps(segments, interval, n - 1);
    }
  }

  lemma {:induction false} EmptyGrid(interval: nat, n: nat)
    ensures GridSum([], interval, n) == 0.0 && GridTime([], interval, n) == 0
  {
    if n > 0 {
      EmptyGrid(interval, n - 1);
    }
  }

  lemma {:induction false} GridIsTotal(segments: seq<Segment>, interval: nat, n: nat)
    requires AllValid(segments)
    requires forall k :: 0 <= k < |segments| ==> segments[k].end <= n * interval
    ensures GridSum(segments, interval, n) == TotalEnergy(segments)
    ensures GridTime(segments, interval, n) == TotalLength(segments)
  {
    if segments == [] {
      EmptyGrid(interval, n);
    } else {
      var m := |segments| - 1;
      GridIsTotal(segments[..m], interval, n);
      AddSegment(segments, interval, n);
    }
  }

  lemma {:induction false} AddSegment(segments: seq<Segment>, interval: nat, n: nat)
    requires AllValid(segments) && segments != [] && segments[|segments| - 1].end <= n * interval
    ensures var m := |segments| - 1;
      && GridSum(segments, interval, n) == GridSum(segments[..m], interval, n) + Trapezoid(segments[m])
      && GridTime(segments, interval, n) == GridTime(segments[..m], interval, n) + (segments[m].end - segments[m].start)
  {
    GridSwaps(segments, interval, n);
    WholeSegment(segments[|segments| - 1], interval, n);
  }

  /** Enough windows hold the whole segment. */
  lemma {:induction false} WholeSegment(s: Segment, interval: nat, n: nat)
    requires ValidSegment(s) && s.end <= n * interval
    ensures WindowSum(s, interval, n) == Trapezoid(s)
    ensures WindowTime(s, interval, n) == s.end - s.start
  {
    WindowsSum(s, interval, n);
    WholeBefore(s, Min(s.end, n * interval));
  }

  lemma {:induction false} WholeBefore(s: Segment, t: nat)
    requires ValidSegment(s) && t == s.end
    ensures AreaBefore(s, t) == Trapezoid(s)
  {}

  lemma {:induction false} NoTimeNoShare(segments: seq<Segment>, interval: nat, i: nat)
    requires AllValid(segments) && SumTime(segments, interval, i) == 0
    ensures SumShare(segments, interval, i) == 0.0
  {
    if segments != [] {
      NoTimeNoShare(segments[..|segments| - 1], interval, i);
    }
  }

  lemma {:induction false} BarsCarryGrid(segments: seq<Segment>, interval: nat, duration: nat, n: nat)
    requires AllValid(segments) && duration > 0
    ensures SumValue(Bars(segments, interval, duration, n)) == GridSum(segments, interval, n)
    ensures GridTime(segments, interval, n) <= U64_MAX ==>
      SumObserved(Bars(segments, interval, duration, n)) == GridTime(segments, interval, n)
  {
    if n > 0 {
      BarsCarryGrid(segments, interval, duration, n - 1);
      var before := Bars(segments, interval, duration, n - 1);
      var bars := Bars(segments, interval, duration, n);
      if SumTime(segments, interval, n - 1) == 0 {
        NoTimeNoShare(segments, interval, n - 1);
        assert bars == before;
      } else {
        assert bars[..|bars| - 1] == before;
      }
    }
  }

  lemma {:induction false} AxisFits(duration: nat)
    ensures duration <= MAX_BARS * Interval(duration)
    ensures Interval(duration) >= BASE_INTERVAL
  {}

  /** Binning conserves energy: the bars sum to the trapezoids of the accepted segments, and the
      observed time to their length, for every list of points. */
  lemma {:induction false} EnergyConserved(points: seq<Point>)
    ensures AllValid(Segments(points, Origin(points)))
    ensures EnergyOf(points).total == TotalEnergy(Segments(points, Origin(points)))
    ensures TotalLength(Segments(points, Origin(points))) <= U64_MAX ==>
      EnergyOf(points).observed == TotalLength(Segments(points, Origin(points)))
  {
    var duration := Duration(points);
    var interval := Interval(duration);
    var segments := Segments(points, Origin(points));
    SegmentsValid(points, points);
    AxisFits(duration);
    if duration == 0 {
      NoSegments(points);
      BarsOfNothing(interval, duration, MAX_BARS);
    } else {
      GridIsTotal(segments, interval, MAX_BARS);
      BarsCarryGrid(segments, interval, duration, MAX_BARS);
    }
  }

  // ---------------------------------------------------------------- layout

  /** Bars lie inside the unit axis, left of `limit`, one after the other. */
  ghost predicate LaidOut(bars: seq<Bin>, limit: real) {
    && (forall k :: 0 <= k < |bars| ==> 0.0 <= bars[k].x0 < bars[k].x1 <= 1.0 && bars[k].x1 <= limit)
    && (forall j, k :: 0 <= j < k < |bars| ==> bars[j].x1 <= bars[k].x0)
  }

  lemma {:induction false} Divides(a: int, b: int, d: nat)
    requires d > 0
    ensures a <= b ==> a as real / d as real <= b as real / d as real
    ensures a < b ==> a as real / d as real < b as real / d as real
  {}

  lemma {:induction false} SelfQuotient(d: nat)
    requires d > 0
    ensures d as real / d as real == 1.0
  {}

  lemma {:induction false} EdgesLaidOut(low: nat, high: nat, duration: nat)
    requires low < high && low < duration <= U64_MAX
    ensures var right := Min(duration, Min(high, U64_MAX));
      && 0.0 <= low as real / duration as real < right as real / duration as real <= 1.0
      && right as real / duration as real <= high as real / duration as real
  {
    var right := Min(duration, Min(high, U64_MAX));
    Divides(0, low, duration);
    Divides(low, right, duration);
    Divides(right, duration, duration);
    Divides(right, high, duration);
    SelfQuotient(duration);
  }

  lemma {:induction false} WindowLaidOut(interval: nat, duration: nat, i: nat)
    requires duration > 0 && interval > 0 && i * interval < duration <= U64_MAX
    ensures 0.0 <= Left(interval, duration, i) < Right(interval, duration, i) <= 1.0
    ensures Right(interval, duration, i) <= Left(interval, duration, i + 1)
  {
    assert (i + 1) * interval == i * interval + interval;
    EdgesLaidOut(i * interval, (i + 1) * interval, duration);
  }

  lemma {:induction false} TimeMeansInside(segments: seq<Segment>, interval: nat, duration: nat, i: nat)
    requires forall k :: 0 <= k < |segments| ==> segments[k].end <= duration
    requires SumTime(segments, interval, i) > 0
    ensures i * interval < duration
  {
    var m := |segments| - 1;
    if Time(segments[m], interval, i) == 0 {
      TimeMeansInside(segments[..m], interval, duration, i);
    }
  }

  lemma {:induction false} LaidOutGrows(bars: seq<Bin>, limit: real, bar: Bin, wider: real)
    requires LaidOut(bars, limit) && limit <= bar.x0 && 0.0 <= bar.x0 < bar.x1 <= 1.0 && bar.x1 <= wider
    ensures LaidOut(bars + [bar], wider)
  {}

  lemma {:induction false} BarsLaidOut(segments: seq<Segment>, interval: nat, duration: nat, n: nat)
    requires AllValid(segments) && 0 < duration <= U64_MAX && interval > 0
    requires forall k :: 0 <= k < |segments| ==> segments[k].end <= duration
    ensures |Bars(segments, interval, duration, n)| <= n
    ensures LaidOut(Bars(segments, interval, duration, n), Left(interval, duration, n))
  {
    if n > 0 {
      BarsLaidOut(segments, interval, duration, n - 1);
      Divides((n - 1) * interval, n * interval, duration);
      if SumTime(segments, interval, n - 1) > 0 {
        TimeMeansInside(segments, interval, duration, n - 1);
        WindowLaidOut(interval, duration, n - 1);
        var bars := Bars(segments, interval, duration, n);
        LaidOutGrows(Bars(segments, interval, duration, n - 1), Left(interval, duration, n - 1),
                     bars[|bars| - 1], Left(interval, duration, n));
      }
    }
  }

  /** At most 48 bars, each inside the axis, none overlapping another, for every list of points. */
  lemma {:induction false} EnergyLaidOut(points: seq<Point>)
    requires Duration(points) <= U64_MAX
    ensures |EnergyOf(points).bars| <= MAX_BARS
    ensures exists limit :: LaidOut(EnergyOf(points).bars, limit)
  {
    var duration := Duration(points);
    var interval := Interval(duration);
    SegmentsValid(points, points);
    AxisFits(duration);
    if duration == 0 {
      NoSegments(points);
      BarsOfNothing(interval, duration, MAX_BARS);
      assert LaidOut(EnergyOf(points).bars, 0.0);
    } else {
      BarsLaidOut(Segments(points, Origin(points)), interval, duration, MAX_BARS);
    }
  }

  // ---------------------------------------------------------------- ordered active times

  ghost predicate Ordered(points: seq<Point>) {
    forall i, j :: 0 <= i < j < |points| ==> points[i].active <= points[j].active
  }

  /** Segments follow one another and end by `until`. */
  ghost predicate Disjoint(segments: seq<Segment>, until: nat) {
    && (forall k :: 0 <= k < |segments| ==> segments[k].end <= until)
    && (forall j, k :: 0 <= j < k < |segments| ==> segments[j].end <= segments[k].start)
  }

  lemma {:induction false} OrderedSegments(points: seq<Point>, origin: nat)
    requires Ordered(points)
    ensures points == [] ==> Segments(points, origin) == []
    ensures points != [] ==> Disjoint(Segments(points, origin), MonusNat(points[|points| - 1].active, origin))
  {
    if |points| >= 2 {
      var n := |points| - 1;
      OrderedSegments(points[..n], origin);
      assert points[n - 1].active <= points[n].active;
    }
  }

  lemma {:induction false} DisjointTimes(segments: seq<Segment>, interval: nat, i: nat, until: nat)
    requires AllValid(segments) && Disjoint(segments, until)
    ensures SumTime(segments, interval, i) <= MonusNat(Min(until, (i + 1) * interval), i * interval)
    ensures TotalLength(segments) <= until
  {
    if segments != [] {
      var m := |segments| - 1;
      DisjointTimes(segments[..m], interval, i, segments[m].start);
      ClippedAdds(segments[m].start, segments[m].end, until, i * interval, (i + 1) * interval);
    }
  }

  lemma {:induction false} ClippedAdds(start: nat, end: nat, until: nat, low: nat, high: nat)
    requires start <= end <= until && low <= high
    ensures MonusNat(Min(start, high), low) + MonusNat(Min(end, high), Max(start, low))
         <= MonusNat(Min(until, high), low)
  {}

  lemma {:induction false} BarsWithinInterval(segments: seq<Segment>, interval: nat, duration: nat, n: nat, until: nat)
    requires AllValid(segments) && Disjoint(segments, until)
    ensures forall k :: 0 <= k < |Bars(segments, interval, duration, n)| ==>
      Bars(segments, interval, duration, n)[k].observed <= interval
  {
    if n > 0 {
      BarsWithinInterval(segments, interval, duration, n - 1, until);
      DisjointTimes(segments, interval, n - 1, until);
      assert n * interval == (n - 1) * interval + interval;
    }
  }

  lemma {:induction false} ExtentOrdered(points: seq<Point>)
    requires Ordered(points) && points != [] && Extent(points).Some?
    ensures Extent(points).value.1 <= points[|points| - 1].active
  {
    var n := |points| - 1;
    if n > 0 && Extent(points[..n]).Some? {
      ExtentOrdered(points[..n]);
      assert points[n - 1].active <= points[n].active;
    }
  }

  lemma {:induction false} SegmentsEndInAxis(points: seq<Point>, prefix: seq<Point>)
    requires prefix <= points && Ordered(points)
    ensures AllValid(Segments(prefix, Origin(points)))
    ensures Disjoint(Segments(prefix, Origin(points)), Duration(points))
  {
    SegmentsValid(prefix, points);
    OrderedSegments(prefix, Origin(points));
  }

  /** With ordered active times no bar observes more than its interval, nor all bars more than the axis. */
  lemma {:induction false} OrderedObservation(points: seq<Point>)
    requires Ordered(points) && Duration(points) <= U64_MAX
    ensures forall k :: 0 <= k < |EnergyOf(points).bars| ==>
      EnergyOf(points).bars[k].observed <= EnergyOf(points).interval
    ensures EnergyOf(points).observed <= EnergyOf(points).duration
  {
    var duration := Duration(points);
    var interval := Interval(duration);
    var segments := Segments(points, Origin(points));
    SegmentsEndInAxis(points, points);
    BarsWithinInterval(segments, interval, duration, MAX_BARS, duration);
    DisjointTimes(segments, interval, 0, duration);
    EnergyConserved(points);
  }
}
