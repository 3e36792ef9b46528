/**
 Discharge energy binned over active time. Power is linear between two accepted samples, so
 a segment's energy is a trapezoid; each bar receives the part of it that lies in its window.
 */
module EnergyBins {
  import opened Outcomes

  const BASE_INTERVAL := 900_000
  const MAX_BARS := 48
  const MS_PER_HOUR := 3_600_000.0

  datatype Point = Point(
    timestamp: nat,
    active: nat,
    continuous: bool,
    mode: string,
    percentage: nat,
    watts: real,
    powerValid: Option<bool>,
    timeToFull: Option<nat>,
    charging: bool,
    plugged: bool)

  datatype Segment = Segment(start: nat, end: nat, startWatts: real, endWatts: real)

  datatype Bin = Bin(x0: real, x1: real, value: real, observed: nat)

  datatype EnergyHistory = EnergyHistory(
    bars: seq<Bin>,
    maximum: real,
    total: real,
    interval: nat,
    duration: nat,
    observed: nat)

  // ---------------------------------------------------------------- segments

  predicate PowerAvailable(p: Point) {
    p.powerValid.GetOr(p.watts > 0.0) && p.watts >= 0.0
  }

  predicate Discharging(p: Point) {
    p.mode == "discharging" || (p.mode == "" && !p.charging && !p.plugged)
  }

  function MonusNat(a: nat, b: nat): nat {
    if a >= b then a - b else 0
  }

  /** Only continuous, ordered, measured discharge samples contribute. */
  function Between(previous: Point, point: Point, origin: nat): Option<Segment> {
    if previous.timestamp == 0 || point.timestamp <= previous.timestamp || !point.continuous
       || point.active <= previous.active || !Discharging(previous) || !Discharging(point)
       || !PowerAvailable(previous) || !PowerAvailable(point)
    then None
    else Some(Segment(MonusNat(previous.active, origin), MonusNat(point.active, origin), previous.watts, point.watts))
  }

  ghost predicate ValidSegment(s: Segment) {
    s.start < s.end
  }

  function PowerAt(s: Segment, time: nat): real
    requires s.start < s.end
  {
    s.startWatts + (s.endWatts - s.startWatts) * (time - s.start) as real / (s.end - s.start) as real
  }

  /** The energy of the segment between two of its times. */
  function Area(s: Segment, a: nat, b: nat): real
    requires s.start < s.end
  {
    (PowerAt(s, a) / 2.0 + PowerAt(s, b) / 2.0) * (b - a) as real / MS_PER_HOUR
  }

  lemma {:induction false} Distribute(x: real, y: real, z: real)
    ensures (x + y) * z == x * z + y * z
  {
  }

  lemma {:induction false} TrapezoidForm(p: real, k: real, a: real, b: real)
    ensures ((p + k * a) / 2.0 + (p + k * b) / 2.0) * (b - a) == p * (b - a) + k * (b * b - a * a) / 2.0
  {
    Distribute(p, k * (a + b) / 2.0, b - a);
    assert (p + k * a) / 2.0 + (p + k * b) / 2.0 == p + k * (a + b) / 2.0;
    assert k * (a + b) / 2.0 * (b - a) == k * ((a + b) * (b - a)) / 2.0;
    assert (a + b) * (b - a) == b * b - a * a;
  }

  lemma {:induction false} PowerIsLinear(s: Segment, time: nat)
    requires ValidSegment(s)
    ensures PowerAt(s, time) ==
      s.startWatts + (s.endWatts - s.startWatts) / (s.end - s.start) as real * (time - s.start) as real
  {
    var rise, run, t := s.endWatts - s.startWatts, (s.end - s.start) as real, (time - s.start) as real;
    assert rise * t / run == rise / run * t;
  }

  /** Energy adds up over adjacent stretches of a segment. */
  lemma {:induction false} AreaSplits(s: Segment, a: nat, b: nat, c: nat)
    requires ValidSegment(s)
    ensures Area(s, a, b) + Area(s, b, c) == Area(s, a, c)
  {
    var p, k := s.startWatts, (s.endWatts - s.startWatts) / (s.end - s.start) as real;
    var x, y, z := (a - s.start) as real, (b - s.start) as real, (c - s.start) as real;
    PowerIsLinear(s, a);
    PowerIsLinear(s, b);
    PowerIsLinear(s, c);
    TrapezoidForm(p, k, x, y);
    TrapezoidForm(p, k, y, z);
    TrapezoidForm(p, k, x, z);
    assert (b - a) as real == y - x && (c - b) as real == z - y && (c - a) as real == z - x;
    SumForm(p, k, x, y, z);
  }

  lemma {:induction false} SumForm(p: real, k: real, x: real, y: real, z: real)
    ensures (p * (y - x) + k * (y * y - x * x) / 2.0) + (p * (z - y) + k * (z * z - y * y) / 2.0)
         == p * (z - x) + k * (z * z - x * x) / 2.0
  {
    assert p * (y - x) + p * (z - y) == p * (z - x);
    var u, v := y * y - x * x, z * z - y * y;
    assert k * u + k * v == k * (u + v);
  }

  /** The whole segment is the trapezoid of its two samples. */
  lemma {:induction false} WholeArea(s: Segment)
    requires ValidSegment(s)
    ensures Area(s, s.start, s.end) ==
      (s.startWatts + s.endWatts) / 2.0 * (s.end - s.start) as real / MS_PER_HOUR
  {
    var rise, run := s.endWatts - s.startWatts, (s.end - s.start) as real;
    assert rise * run / run == rise;
    assert PowerAt(s, s.end) == s.endWatts;
    assert PowerAt(s, s.start) == s.startWatts;
  }

  // ---------------------------------------------------------------- windows

  /** The part of `[start, until)` of a segment that lies in window `i`. */
  function From(s: Segment, interval: nat, i: nat): nat {
    Max(s.start, i * interval)
  }

  function To(interval: nat, i: nat, until: nat): nat {
    Min(until, (i + 1) * interval)
  }

  function ShareTo(s: Segment, interval: nat, i: nat, until: nat): real
    requires s.start < s.end
  {
    var a, b := From(s, interval, i), To(interval, i, until);
    if a < b then Area(s, a, b) else 0.0
  }

  function TimeTo(s: Segment, interval: nat, i: nat, until: nat): nat {
    MonusNat(To(interval, i, until), From(s, interval, i))
  }

  /** What window `i` receives of a segment: its energy and its observed time. */
  function Share(s: Segment, interval: nat, i: nat): real
    requires s.start < s.end
  {
    ShareTo(s, interval, i, s.end)
  }

  function Time(s: Segment, interval: nat, i: nat): nat {
    TimeTo(s, interval, i, s.end)
  }

  lemma {:induction false} WindowsOrdered(interval: nat, i: nat, j: nat)
    requires i < j
    ensures (i + 1) * interval <= j * interval
  {
  }

  lemma {:induction false} WindowOf(interval: nat, offset: nat)
    requires interval > 0
    ensures 0 <= offset / interval
    ensures offset / interval * interval <= offset < (offset / interval + 1) * interval
  {
  }

  /** One pass of the splitting loop gives window `index` its stretch and leaves the others alone. */
  lemma {:induction false} LoopStep(s: Segment, interval: nat, index: nat, offset: nat, stop: nat, i: nat)
    requires ValidSegment(s) && interval > 0 && s.start <= offset < s.end
    requires offset == s.start || offset == index * interval
    requires index * interval <= offset < (index + 1) * interval
    requires stop == Min(s.end, (index + 1) * interval)
    ensures ShareTo(s, interval, i, stop) ==
      ShareTo(s, interval, i, offset) + (if i == index then Area(s, offset, stop) else 0.0)
    ensures TimeTo(s, interval, i, stop) ==
      TimeTo(s, interval, i, offset) + (if i == index then stop - offset else 0)
  {
    if i < index {
      WindowsOrdered(interval, i, index);
    } else if index < i {
      WindowsOrdered(interval, index, i);
    }
  }

  // ---------------------------------------------------------------- accumulation

  type Bins = map<nat, Bin>

  function ValueOf(bins: Bins, i: nat): real {
    if i in bins then bins[i].value else 0.0
  }

  function ObservedOf(bins: Bins, i: nat): nat {
    if i in bins then bins[i].observed else 0
  }

  /** Where a bar of window `i` is drawn. */
  function Left(interval: nat, duration: nat, i: nat): real
    requires duration > 0
  {
    (i * interval) as real / duration as real
  }

  function Right(interval: nat, duration: nat, i: nat): real
    requires duration > 0
  {
    Min(duration, Min((i + 1) * interval, U64_MAX)) as real / duration as real
  }

  ghost predicate Framed(bins: Bins, duration: nat, interval: nat) {
    && duration > 0
    && forall i :: i in bins ==>
      && i * interval < duration
      && bins[i].observed <= U64_MAX
      && bins[i].x0 == Left(interval, duration, i) && bins[i].x1 == Right(interval, duration, i)
  }

  /** `after` holds what `before` held and the given additions, window by window. */
  ghost predicate Adds(before: Bins, after: Bins, s: Segment, interval: nat, until: nat)
    requires s.start < s.end
  {
    && (forall i: nat :: i in after <==> i in before || TimeTo(s, interval, i, until) > 0)
    && (forall i: nat :: ValueOf(after, i) == ValueOf(before, i) + ShareTo(s, interval, i, until))
    && (forall i: nat :: ObservedOf(after, i) == SatAdd(ObservedOf(before, i), TimeTo(s, interval, i, until)))
  }

  /** Adds one stretch to the bin of its window, creating the bin if needed. */
  function Deposit(bins: Bins, s: Segment, index: nat, offset: nat, stop: nat, duration: nat, interval: nat): Bins
    requires s.start < s.end && offset <= stop && duration > 0
  {
    var boundary := Min((index + 1) * interval, U64_MAX);
    var bin := if index in bins then bins[index]
      else Bin((index * interval) as real / duration as real,
               Min(duration, boundary) as real / duration as real, 0.0, 0);
    bins[index := bin.(
      value := bin.value + (PowerAt(s, offset) / 2.0 + PowerAt(s, stop) / 2.0) * (stop - offset) as real / MS_PER_HOUR,
      observed := SatAdd(bin.observed, stop - offset))]
  }

  /** Splits a segment at the window boundaries and adds each stretch to its bin. */
  method Accumulate(s: Segment, before: Bins, duration: nat, interval: nat) returns (bins: Bins)
    requires s.start < s.end <= duration <= U64_MAX && interval > 0
    requires Framed(before, duration, interval)
    ensures Adds(before, bins, s, interval, s.end)
    ensures Framed(bins, duration, interval)
  {
    bins := before;
    var offset := s.start;
    NothingYet(s, before, duration, interval);
    while offset < s.end
      invariant s.start <= offset <= s.end
      invariant AtWindow(s, interval, offset)
      invariant Adds(before, bins, s, interval, offset)
      invariant Framed(bins, duration, interval)
    {
      StepAdvances(s, interval, offset);
      var index: nat := offset / interval;
      var boundary := Min((index + 1) * interval, U64_MAX);
      var stop: nat := Min(s.end, boundary);
      AddsStep(s, interval, index, offset, stop, before, bins, duration);
      bins := Deposit(bins, s, index, offset, stop, duration, interval);
      offset := stop;
    }
  }

  /** Between two passes of the loop the offset is an end of the segment or a window boundary. */
  ghost predicate AtWindow(s: Segment, interval: nat, offset: nat)
    requires interval > 0
  {
    offset == s.start || offset == s.end || offset == offset / interval * interval
  }

  lemma {:induction false} StepAdvances(s: Segment, interval: nat, offset: nat)
    requires interval > 0 && s.start <= offset < s.end <= U64_MAX && AtWindow(s, interval, offset)
    ensures var index := offset / interval;
      var stop := Min(s.end, Min((index + 1) * interval, U64_MAX));
      && 0 <= index && index * interval <= offset < (index + 1) * interval
      && offset < stop <= s.end && stop == Min(s.end, (index + 1) * interval)
      && AtWindow(s, interval, stop)
  {
    WindowOf(interval, offset);
    NextStop(s, interval, offset, offset / interval);
  }

  lemma {:induction false} NextStop(s: Segment, interval: nat, offset: nat, index: nat)
    requires interval > 0 && offset < s.end <= U64_MAX
    requires offset < (index + 1) * interval
    ensures var stop := Min(s.end, Min((index + 1) * interval, U64_MAX));
      && offset < stop <= s.end && stop == Min(s.end, (index + 1) * interval)
      && AtWindow(s, interval, stop)
  {
    StopsAtWindow(interval, index, s.end, Min(s.end, (index + 1) * interval));
  }

  lemma {:induction false} NothingYet(s: Segment, bins: Bins, duration: nat, interval: nat)
    requires ValidSegment(s) && Framed(bins, duration, interval)
    ensures Adds(bins, bins, s, interval, s.start)
  {
  }

  lemma {:induction false} StopsAtWindow(interval: nat, index: nat, end: nat, stop: nat)
    requires interval > 0 && stop == Min(end, (index + 1) * interval)
    ensures stop == end || stop == stop / interval * interval
  {
    if stop != end {
      assert stop / interval == index + 1 by {
        assert stop == (index + 1) * interval;
        QuotientOf(index + 1, interval);
      }
    }
  }

  lemma {:induction false} QuotientOf(q: nat, interval: nat)
    requires interval > 0
    ensures q * interval / interval == q
  {
    WindowOf(interval, q * interval);
    var k := q * interval / interval;
    if k < q {
      WindowsOrdered(interval, k, q);
    }
  }

  lemma {:induction false} AddsStep(
    s: Segment, interval: nat, index: nat, offset: nat, stop: nat, before: Bins, bins: Bins, duration: nat)
    requires s.start < s.end <= duration && interval > 0 && s.start <= offset < s.end && offset < stop
    requires offset == s.start || offset == index * interval
    requires index * interval <= offset < (index + 1) * interval
    requires stop == Min(s.end, (index + 1) * interval)
    requires Adds(before, bins, s, interval, offset) && Framed(bins, duration, interval)
    ensures Adds(before, Deposit(bins, s, index, offset, stop, duration, interval), s, interval, stop)
    ensures Framed(Deposit(bins, s, index, offset, stop, duration, interval), duration, interval)
  {
    var after: Bins := Deposit(bins, s, index, offset, stop, duration, interval);
    DepositAdds(bins, s, index, offset, stop, duration, interval);
    forall i: nat
      ensures i in after <==> i in before || TimeTo(s, interval, i, stop) > 0
      ensures ValueOf(after, i) == ValueOf(before, i) + ShareTo(s, interval, i, stop)
      ensures ObservedOf(after, i) == SatAdd(ObservedOf(before, i), TimeTo(s, interval, i, stop))
    {
      LoopStep(s, interval, index, offset, stop, i);
    }
  }

  lemma {:induction false} DepositOne(
    bins: Bins, s: Segment, index: nat, offset: nat, stop: nat, duration: nat, interval: nat, i: nat)
    requires s.start < s.end && offset < stop && Framed(bins, duration, interval)
    ensures var after: Bins := Deposit(bins, s, index, offset, stop, duration, interval);
      && (i in after <==> i in bins || i == index)
      && ValueOf(after, i) == ValueOf(bins, i) + (if i == index then Area(s, offset, stop) else 0.0)
      && ObservedOf(after, i) == SatAdd(ObservedOf(bins, i), if i == index then stop - offset else 0)
      && (i != index && i in bins ==> after[i] == bins[i])
  {}

  lemma {:induction false} DepositAdds(
    bins: Bins, s: Segment, index: nat, offset: nat, stop: nat, duration: nat, interval: nat)
    requires s.start < s.end && offset < stop && Framed(bins, duration, interval) && index * interval < duration
    ensures var after: Bins := Deposit(bins, s, index, offset, stop, duration, interval);
      && Framed(after, duration, interval)
      && (forall i: nat :: i in after <==> i in bins || i == index)
      && (forall i: nat :: ValueOf(after, i) == ValueOf(bins, i) + (if i == index then Area(s, offset, stop) else 0.0))
      && (forall i: nat :: ObservedOf(after, i) ==
            SatAdd(ObservedOf(bins, i), if i == index then stop - offset else 0))
  {
    var after: Bins := Deposit(bins, s, index, offset, stop, duration, interval);
    forall i: nat
      ensures i in after <==> i in bins || i == index
      ensures ValueOf(after, i) == ValueOf(bins, i) + (if i == index then Area(s, offset, stop) else 0.0)
      ensures ObservedOf(after, i) == SatAdd(ObservedOf(bins, i), if i == index then stop - offset else 0)
      ensures i != index && i in bins ==> after[i] == bins[i]
    {
      DepositOne(bins, s, index, offset, stop, duration, interval, i);
    }
  }

  // ---------------------------------------------------------------- the history

  /** The smallest and largest active time among points with a timestamp. */
  function Extent(points: seq<Point>): Option<(nat, nat)> {
    if points == [] then None
    else
      var before := Extent(points[..|points| - 1]);
      var p := points[|points| - 1];
      if p.timestamp == 0 then before
      else if before.None? then Some((p.active, p.active))
      else Some((Min(before.value.0, p.active), Max(before.value.1, p.active)))
  }

  function Origin(points: seq<Point>): nat {
    if Extent(points).Some? then Extent(points).value.0 else 0
  }

  function Duration(points: seq<Point>): nat {
    if Extent(points).Some? then MonusNat(Extent(points).value.1, Extent(points).value.0) else 0
  }

  function CeilDiv(a: nat, b: nat): nat
    requires b > 0
  {
    if a % b == 0 then a / b else a / b + 1
  }

  function Interval(duration: nat): nat {
    Max(CeilDiv(duration, MAX_BARS * BASE_INTERVAL), 1) * BASE_INTERVAL
  }

  /** The accepted segments of adjacent points, in order. */
  function Segments(points: seq<Point>, origin: nat): seq<Segment> {
    if |points| < 2 then []
    else
      var n := |points| - 1;
      var last := Between(points[n - 1], points[n], origin);
      Segments(points[..n], origin) + (if last.Some? then [last.value] else [])
  }

  ghost predicate AllValid(segments: seq<Segment>) {
    forall k :: 0 <= k < |segments| ==> segments[k].start < segments[k].end
  }

  function SumShare(segments: seq<Segment>, interval: nat, i: nat): real
    requires forall k :: 0 <= k < |segments| ==> segments[k].start < segments[k].end
  {
    if segments == [] then 0.0
    else SumShare(segments[..|segments| - 1], interval, i) + Share(segments[|segments| - 1], interval, i)
  }

  function SumTime(segments: seq<Segment>, interval: nat, i: nat): nat {
    if segments == [] then 0
    else SumTime(segments[..|segments| - 1], interval, i) + Time(segments[|segments| - 1], interval, i)
  }

  /** The bars of the first `n` windows: those some segment reaches, with the energy it has there. */
  function Bars(segments: seq<Segment>, interval: nat, duration: nat, n: nat): seq<Bin>
    requires forall k :: 0 <= k < |segments| ==> segments[k].start < segments[k].end
  {
    if n == 0 then []
    else
      var i := n - 1;
      var time := SumTime(segments, interval, i);
      Bars(segments, interval, duration, n - 1)
      + (if time > 0 && duration > 0
         then [Bin(Left(interval, duration, i), Right(interval, duration, i),
                   SumShare(segments, interval, i), Min(time, U64_MAX))]
         else [])
  }

  function SumValue(bars: seq<Bin>): real {
    if bars == [] then 0.0 else SumValue(bars[..|bars| - 1]) + bars[|bars| - 1].value
  }

  function SumObserved(bars: seq<Bin>): nat {
    if bars == [] then 0 else SumObserved(bars[..|bars| - 1]) + bars[|bars| - 1].observed
  }

  function Highest(bars: seq<Bin>): real {
    if bars == [] then 0.0
    else
      var rest := Highest(bars[..|bars| - 1]);
      if bars[|bars| - 1].value > rest then bars[|bars| - 1].value else rest
  }

  function Summary(bars: seq<Bin>, interval: nat, duration: nat): EnergyHistory {
    EnergyHistory(bars, Highest(bars), SumValue(bars), interval, duration, SumObserved(bars))
  }

  /** The energy history of a list of points, window by window. */
  function EnergyOf(points: seq<Point>): EnergyHistory {
    var duration := Duration(points);
    var interval := Interval(duration);
    var segments := Segments(points, Origin(points));
    SegmentsValid(points, points);
    Summary(Bars(segments, interval, duration, MAX_BARS), interval, duration)
  }

  lemma {:induction false} ExtentBounds(points: seq<Point>, k: nat)
    requires k < |points| && points[k].timestamp > 0
    ensures Extent(points).Some?
    ensures Extent(points).value.0 <= points[k].active <= Extent(points).value.1
  {
    var n := |points| - 1;
    if k < n {
      ExtentBounds(points[..n], k);
    }
  }

  /** Accepted segments of a prefix lie within the axis of the whole list. */
  lemma {:induction false} SegmentsValid(prefix: seq<Point>, points: seq<Point>)
    requires prefix <= points
    ensures var segments := Segments(prefix, Origin(points));
      && AllValid(segments)
      && forall k :: 0 <= k < |segments| ==> segments[k].end <= Duration(points)
  {
    if |prefix| >= 2 {
      var n := |prefix| - 1;
      SegmentsValid(prefix[..n], points);
      if Between(prefix[n - 1], prefix[n], Origin(points)).Some? {
        ExtentBounds(points, n - 1);
        ExtentBounds(points, n);
      }
    }
  }

  /** Bins that hold exactly the energy of the given segments. */
  ghost predicate Holds(bins: Bins, segments: seq<Segment>, interval: nat)
    requires AllValid(segments)
  {
    forall i: nat ::
      && (i in bins <==> SumTime(segments, interval, i) > 0)
      && ValueOf(bins, i) == SumShare(segments, interval, i)
      && ObservedOf(bins, i) == Min(SumTime(segments, interval, i), U64_MAX)
  }

  lemma {:induction false} HoldsMore(before: Bins, after: Bins, segments: seq<Segment>, s: Segment, interval: nat)
    requires AllValid(segments) && ValidSegment(s)
    requires Holds(before, segments, interval) && Adds(before, after, s, interval, s.end)
    ensures Holds(after, segments + [s], interval)
  {
    assert (segments + [s])[..|segments|] == segments;
    forall i: nat
      ensures i in after <==> SumTime(segments + [s], interval, i) > 0
      ensures ValueOf(after, i) == SumShare(segments + [s], interval, i)
      ensures ObservedOf(after, i) == Min(SumTime(segments + [s], interval, i), U64_MAX)
    {
      assert SumTime(segments + [s], interval, i) == SumTime(segments, interval, i) + Time(s, interval, i);
      assert SumShare(segments + [s], interval, i) == SumShare(segments, interval, i) + Share(s, interval, i);
    }
  }

  method CollectBins(points: seq<Point>, interval: nat) returns (bins: Bins)
    requires 0 < Duration(points) <= U64_MAX && interval > 0
    ensures Framed(bins, Duration(points), interval)
    ensures AllValid(Segments(points, Origin(points))) && Holds(bins, Segments(points, Origin(points)), interval)
  {
    var origin, duration := Origin(points), Duration(points);
    bins := map[];
    var k := 1;
    while k < |points|
      invariant 1 <= k <= |points|
      invariant AllValid(Segments(points[..k], origin)) && Holds(bins, Segments(points[..k], origin), interval)
      invariant Framed(bins, duration, interval)
    {
      var segment := Between(points[k - 1], points[k], origin);
      NextSegment(points, k);
      if segment.Some? {
        var previous := bins;
        bins := Accumulate(segment.value, previous, duration, interval);
        HoldsMore(previous, bins, Segments(points[..k], origin), segment.value, interval);
      }
      k := k + 1;
    }
    assert points[..k] == points;
  }

  lemma {:induction false} NextSegment(points: seq<Point>, k: nat)
    requires 1 <= k < |points|
    ensures var segment := Between(points[k - 1], points[k], Origin(points));
      && AllValid(Segments(points[..k + 1], Origin(points)))
      && Segments(points[..k + 1], Origin(points))
           == (if segment.Some? then Segments(points[..k], Origin(points)) + [segment.value]
               else Segments(points[..k], Origin(points)))
      && (segment.Some? ==> segment.value.start < segment.value.end <= Duration(points))
  {
    SegmentsValid(points[..k + 1], points);
    assert points[..k + 1][..k] == points[..k];
    var longer := Segments(points[..k + 1], Origin(points));
    if Between(points[k - 1], points[k], Origin(points)).Some? {
      assert longer[|longer| - 1].end <= Duration(points);
    }
  }

  /** Lists the bins in window order. */
  method ListBars(bins: Bins, ghost segments: seq<Segment>, duration: nat, interval: nat) returns (bars: seq<Bin>)
    requires AllValid(segments) && Holds(bins, segments, interval) && Framed(bins, duration, interval)
    ensures bars == Bars(segments, interval, duration, MAX_BARS)
  {
    bars := [];
    var i: nat := 0;
    while i < MAX_BARS
      invariant i <= MAX_BARS
      invariant bars == Bars(segments, interval, duration, i)
    {
      assert SumTime(segments, interval, i) > 0 <==> i in bins;
      assert i in bins ==> bins[i].value == ValueOf(bins, i) && bins[i].observed == ObservedOf(bins, i);
      if i in bins {
        bars := bars + [bins[i]];
      }
      i := i + 1;
    }
  }

  /** Computes the history as the daemon does: split, accumulate, list in window order. */
  method Energy(points: seq<Point>) returns (history: EnergyHistory)
    requires Duration(points) <= U64_MAX
    ensures history == EnergyOf(points)
  {
    var duration := Duration(points);
    var interval := Interval(duration);
    var bars: seq<Bin> := [];
    if duration > 0 {
      var bins := CollectBins(points, interval);
      bars := ListBars(bins, Segments(points, Origin(points)), duration, interval);
    } else {
      NoSegments(points);
      BarsOfNothing(interval, duration, MAX_BARS);
    }
    history := Summary(bars, interval, duration);
  }

  lemma {:induction false} NoSegments(points: seq<Point>)
    requires Duration(points) == 0
    ensures Segments(points, Origin(points)) == []
  {
    SegmentsValid(points, points);
    var segments := Segments(points, Origin(points));
    assert segments == [] || segments[0].end <= 0;
  }

  lemma {:induction false} BarsOfNothing(interval: nat, duration: nat, n: nat)
    ensures Bars([], interval, duration, n) == []
  {
    if n > 0 {
      BarsOfNothing(interval, duration, n - 1);
    }
  }
}
