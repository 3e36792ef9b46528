/** What a record on disk is for: a pass after any restart puts the recorded range back with it. */
module BatteryRestoration {
  import opened Outcomes
  import opened BatteryRuntime
  import opened BatteryProtocol
  import opened BatteryMonitor
  import opened BatteryRuns
  import opened BatteryFences

  /** The range the threshold loop leaves on a device that had `range`. */
  function RangeAfter(r: Runtime, seen: Seen, due: bool, range: Range): Range {
    match Target(r, seen, due)
    case None => range
    case Some(target) =>
      if AlreadyApplied(r, seen, due, target) || !seen.controllable || seen.write.Denied? then range
      else seen.write.left
  }

  lemma {:induction false} OneTarget(s: Session, r: Runtime, seen: Seen, due: bool)
    requires seen.id in s.now.hardware
    ensures var next := ApplyTarget(s, r, seen, due).0.now;
      && next.hardware.Keys == s.now.hardware.Keys
      && next.hardware[seen.id].range == RangeAfter(r, seen, due, s.now.hardware[seen.id].range)
      && (forall b :: b in s.now.hardware && b != seen.id ==> next.hardware[b] == s.now.hardware[b])
      && next.runtime.HasOperation() == s.now.runtime.HasOperation()
  {}

  /** Each device of the loop is moved by its own target alone. */
  lemma {:induction false} RangesFor(
    s: Session, r: Runtime, devices: seq<Seen>, due: bool, restored: bool, b: string)
    requires forall k :: 0 <= k < |devices| ==> devices[k].id in s.now.hardware
    requires DistinctDevices(devices) && b in s.now.hardware
    ensures var next := ReconcileRanges(s, r, devices, due, restored).0.now;
      var found := Find(devices, b);
      && b in next.hardware && next.runtime.HasOperation() == s.now.runtime.HasOperation()
      && next.hardware[b].range
         == (if found.Some? then RangeAfter(r, found.value, due, s.now.hardware[b].range)
             else s.now.hardware[b].range)
    decreases |devices|
  {
    if devices != [] {
      OneTarget(s, r, devices[0], due);
      var (next, applied) := ApplyTarget(s, r, devices[0], due);
      var flag := if r.chargeOnce && devices[0].id == r.chargeOnceBattery then applied else restored;
      RangesFor(next, r, devices[1..], due, flag, b);
      if devices[0].id == b {
        NotFound(devices[1..], b);
      }
    }
  }

  lemma {:induction false} NotFound(devices: seq<Seen>, b: string)
    requires forall k :: 0 <= k < |devices| ==> devices[k].id != b
    ensures Find(devices, b).None? && FindLast(devices, b).None?
    decreases |devices|
  {
    if devices != [] {
      NotFound(devices[1..], b);
      FindLastTail(devices, b);
    }
  }

  lemma {:induction false} OneReading(devices: seq<Seen>, b: string)
    requires DistinctDevices(devices)
    ensures FindLast(devices, b) == Find(devices, b)
    decreases |devices|
  {
    if devices != [] {
      FindLastTail(devices, b);
      OneReading(devices[1..], b);
      if devices[0].id == b {
        NotFound(devices[1..], b);
      }
    }
  }

  // ---------------------------------------------------------------- charge-once

  /**
   A pass that finishes the charge-once a record names ends with nothing pending, and with the recorded
   range on the device exactly when it wrote it or the reading that spared the write is true.
   */
  lemma {:induction false} OnceRestored(d: Durable, pass: Pass, b: string, range: Range)
    requires Exclusive(d.runtime) && Present(d, pass) && DistinctDevices(pass.devices)
    requires d.runtime.chargeOnce && Names(d.runtime, b, range) && b != "" && FinishesOnce(d, pass)
    ensures Find(pass.devices, b).Some?
    ensures var y := Reconcile(d, pass).now;
      && !y.runtime.HasOperation() && b in d.hardware && b in y.hardware
      && (y.hardware[b].range == range
          <==> Find(pass.devices, b).value.range != Some(range) || d.hardware[b].range == range)
  {
    OneReading(pass.devices, b);
    FinishesExactly(d, pass);
    BeforeFinishLawful(d, pass);
    FindIsListed(pass.devices, b);
    var adopted := Adopt(StartOf(d, pass), pass);
    assert adopted.session == Session([], d) && adopted.runtime == d.runtime;
    RangesFor(adopted.session, d.runtime, pass.devices, true, false, b);
  }

  // ---------------------------------------------------------------- calibration

  /** The pass ends the calibration of `b`: it restores it, every call is confirmed, and the record is saved. */
  predicate EndsCalibration(d: Durable, pass: Pass, b: string, range: Range) {
    var found := Find(pass.devices, b);
    && pass.loads && found.Some? && Restores(d.runtime, found.value, pass)
    && (d.runtime.phase == Restoring || pass.restoration.begin.Saved?)
    && pass.restoration.behaviour.Done? && pass.restoration.write == Confirmed(range) && !pass.keep.KeptOld?
  }

  /** The state saved when a calibration ends: its range on the device and nothing pending. */
  lemma {:induction false} CalibrationEnds(d: Durable, pass: Pass, b: string, range: Range)
    requires Exclusive(d.runtime) && Present(d, pass)
    requires d.runtime.operation == Calibration && Names(d.runtime, b, range) && EndsCalibration(d, pass, b, range)
    ensures var adopted := Adopt(StartOf(d, pass), pass);
      var operated := ReconcileOperation(adopted, pass);
      && operated.flag && !operated.runtime.HasOperation() && operated.session.now.hardware.Keys == d.hardware.Keys
      && b in d.hardware && operated.session.now.hardware[b].range == range
      && b !in operated.runtime.fenced && DevicesAfter(adopted, pass) == Reread(pass.devices, b, range)
  {
    FindIsListed(pass.devices, b);
    WithoutRemoves(d.runtime.fenced, b);
    OperationKeepsDevices(StartOf(d, pass), pass);
  }

  lemma {:induction false} RereadFound(devices: seq<Seen>, b: string, range: Range)
    requires DistinctDevices(devices) && Find(devices, b).Some?
    ensures DistinctDevices(Reread(devices, b, range))
    ensures Find(Reread(devices, b, range), b)
         == Some(Find(devices, b).value.(range := Some(range), end := Some(range.end)))
    decreases |devices|
  {
    if devices[0].id != b {
      RereadFound(devices[1..], b, range);
    }
  }

  /** The device has this range and nothing is pending. */
  predicate RestedAt(d: Durable, b: string, range: Range) {
    b in d.hardware && d.hardware[b].range == range && !d.runtime.HasOperation()
  }

  /** The policy of the device asks for another range than the restored one, and writes it. */
  predicate PolicyMoves(seen: Seen, range: Range) {
    && seen.configured.Some? && seen.configured != Some(range) && seen.accepted != Some(range)
    && seen.controllable && !seen.write.Denied?
  }

  /**
   A pass that ends the calibration a record names passes through a state with the recorded range on the
   device and nothing pending, and ends there unless the device's policy then writes another range.
   */
  lemma {:induction false} CalibrationRestored(d: Durable, pass: Pass, b: string, range: Range)
    requires Exclusive(d.runtime) && Present(d, pass) && DistinctDevices(pass.devices)
    requires d.runtime.operation == Calibration && Names(d.runtime, b, range) && EndsCalibration(d, pass, b, range)
    ensures exists x :: x in Reconcile(d, pass).States() && RestedAt(x, b, range)
    ensures var seen := Find(pass.devices, b).value;
      RestedAt(Reconcile(d, pass).now, b, if PolicyMoves(seen, range) then seen.write.left else range)
  {
    CalibrationEnds(d, pass, b, range);
    var adopted := Adopt(StartOf(d, pass), pass);
    var operated := ReconcileOperation(adopted, pass);
    var kept := Save(operated.session, operated.runtime, pass.keep);
    var devices := Reread(pass.devices, b, range);
    RereadFound(pass.devices, b, range);
    FindIsListed(pass.devices, b);
    RangesFor(kept, operated.runtime, devices, false, false, b);
    RangesExtend(kept, operated.runtime, devices, false, false);
    var ranged := ReconcileRanges(kept, operated.runtime, devices, false, false).0;
    assert Reconcile(d, pass) == ranged;
    assert kept.States()[|kept.past|] == kept.now && ranged.States()[|kept.past|] == kept.now;
    assert RestedAt(kept.now, b, range);
    PolicyAfter(operated.runtime, Find(devices, b).value, range);
  }

  lemma {:induction false} PolicyAfter(r: Runtime, seen: Seen, range: Range)
    requires !r.HasOperation() && seen.range == Some(range) && seen.id !in r.fenced
    ensures RangeAfter(r, seen, false, range)
         == if PolicyMoves(seen, range) then seen.write.left else range
  {}
}
