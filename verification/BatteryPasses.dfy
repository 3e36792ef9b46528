/** What a monitor pass does to a device, said of the record, the reading and the outcome of each write. */
module BatteryPasses {
  import opened Outcomes
  import opened BatteryRuntime
  import opened BatteryProtocol
  import opened BatteryMonitor
  import opened BatteryRuns
  import opened BatteryOutcomes
  import opened BatteryRestoration

  // ---------------------------------------------------------------- behaviour

  /** A calibration is to end: it is fenced or restoring already, out of time or of power, full, or in no phase
      that could go on. */
  predicate CalibrationOver(r: Runtime, seen: Seen, pass: Pass) {
    || seen.id in r.fenced || r.phase == Restoring || !pass.plugged
    || (r.operationExpires != 0 && pass.now >= r.operationExpires)
    || (r.phase == Charging && seen.percentage >= 100)
    || (r.phase != Charging && r.phase != BatteryRuntime.Discharging)
  }

  /** The behaviour a running operation asks of its device. */
  function Asked(r: Runtime, seen: Seen): string {
    if r.operation == Inhibit then "inhibit-charge"
    else if r.phase == BatteryRuntime.Discharging && seen.percentage > 1 then "force-discharge"
    else "auto"
  }

  lemma {:induction false} RangesKeepBehaviour(
    s: Session, r: Runtime, devices: seq<Seen>, due: bool, restored: bool, b: string)
    requires b in s.now.hardware && forall k :: 0 <= k < |devices| ==> devices[k].id in s.now.hardware
    ensures var next := ReconcileRanges(s, r, devices, due, restored).0.now;
      b in next.hardware && next.hardware[b].behaviour == s.now.hardware[b].behaviour
    decreases |devices|
  {
    if devices != [] {
      var (next, applied) := ApplyTarget(s, r, devices[0], due);
      OneTarget(s, r, devices[0], due);
      RangesKeepBehaviour(next, r, devices[1..], due,
                          if r.chargeOnce && devices[0].id == r.chargeOnceBattery then applied else restored, b);
    }
  }

  lemma {:induction false} PassBehaviour(d: Durable, pass: Pass, b: string)
    requires Exclusive(d.runtime) && Present(d, pass) && b in d.hardware
    ensures var operated := ReconcileOperation(Adopt(StartOf(d, pass), pass), pass).session.now;
      var y := Reconcile(d, pass).now;
      b in operated.hardware && b in y.hardware && y.hardware[b].behaviour == operated.hardware[b].behaviour
  {
    var adopted := Adopt(StartOf(d, pass), pass);
    OperationKeepsDevices(adopted, pass);
    var operated := ReconcileOperation(adopted, pass);
    var kept := if operated.flag then Save(operated.session, operated.runtime, pass.keep) else operated.session;
    RangesKeepBehaviour(kept, operated.runtime, DevicesAfter(adopted, pass), Due(operated.runtime, pass), false, b);
  }

  /** A pass over an inhibition, or a calibration that goes on, leaves the behaviour that was asked for, or what a
      refused or unclear write left; a reading that already shows it spares the write. */
  lemma {:induction false} RunningOperation(d: Durable, pass: Pass, b: string)
    requires Exclusive(d.runtime) && Present(d, pass) && pass.loads && Find(pass.devices, b).Some? && b in d.hardware
    requires d.runtime.operation != NoOperation && d.runtime.operationBattery == b && b !in d.runtime.fenced
    requires d.runtime.operation == Calibration ==> !CalibrationOver(d.runtime, Find(pass.devices, b).value, pass)
    ensures var seen, own := Find(pass.devices, b).value, d.hardware[b].behaviour;
      var asked := Asked(d.runtime, seen);
      Reconcile(d, pass).now.hardware.Keys == d.hardware.Keys
      && Reconcile(d, pass).now.hardware[b].behaviour
         == if seen.behaviour == asked then own else Left(own, asked, pass.steer)
  {
    FindIsListed(pass.devices, b);
    PassBehaviour(d, pass, b);
    PassOrderly(d, pass);
  }

  /** A pass over a calibration that is to end leaves "auto", or what a refused or unclear write left. */
  lemma {:induction false} EndingCalibration(d: Durable, pass: Pass, b: string)
    requires Exclusive(d.runtime) && Present(d, pass) && pass.loads && Find(pass.devices, b).Some? && b in d.hardware
    requires d.runtime.operation == Calibration && d.runtime.operationBattery == b
    requires CalibrationOver(d.runtime, Find(pass.devices, b).value, pass)
    requires d.runtime.phase == Restoring || pass.restoration.begin.Saved?
    ensures Reconcile(d, pass).now.hardware.Keys == d.hardware.Keys
    ensures Reconcile(d, pass).now.hardware[b].behaviour
         == Left(d.hardware[b].behaviour, "auto", pass.restoration.behaviour)
  {
    FindIsListed(pass.devices, b);
    PassBehaviour(d, pass, b);
    PassOrderly(d, pass);
    FinishLeaves(StartOf(d, pass), b, pass.restoration);
  }

  lemma {:induction false} FinishLeaves(p: Progress, battery: string, luck: Luck)
    requires battery in p.session.now.hardware && (p.runtime.phase == Restoring || luck.begin.Saved?)
    ensures var next := FinishOperation(p, battery, luck).session.now;
      battery in next.hardware
      && next.hardware[battery].behaviour == Left(p.session.now.hardware[battery].behaviour, "auto", luck.behaviour)
  {}

  // ---------------------------------------------------------------- range

  /** The charge-once is over: power is gone, its battery is full, or its time is up. */
  predicate OnceOver(r: Runtime, pass: Pass) {
    var found := Find(pass.devices, r.chargeOnceBattery);
    || !pass.plugged || (found.Some? && found.value.percentage >= 100)
    || (r.chargeOnceExpires != 0 && pass.now >= r.chargeOnceExpires)
  }

  /** The range wanted of a device while no inhibition or calibration is pending: open while its charge-once lasts,
      the recorded one when that is over, the configured one otherwise. A fence stops all but the restoration. */
  function Wanted(r: Runtime, seen: Seen, pass: Pass): Option<Range> {
    if r.chargeOnce && r.chargeOnceBattery == seen.id then
      if OnceOver(r, pass) then (if r.restore.Some? then r.restore else seen.configured)
      else if seen.id in r.fenced then None
      else Some(Range(0, 100))
    else if seen.id in r.fenced then None
    else seen.configured
  }

  /** The reading shows that nothing need be written. */
  predicate Settled(r: Runtime, seen: Seen, pass: Pass) {
    var own := r.chargeOnce && r.chargeOnceBattery == seen.id;
    || seen.range == Wanted(r, seen, pass)
    || (own && !OnceOver(r, pass) && seen.end == Some(100))
    || (!own && seen.accepted.Some? && seen.range == seen.accepted)
  }

  /** The range a pass leaves on each device it has read, while no inhibition or calibration is pending. */
  lemma {:induction false} PassRange(d: Durable, pass: Pass, b: string)
    requires Exclusive(d.runtime) && Present(d, pass) && DistinctDevices(pass.devices) && pass.loads
    requires d.runtime.operation == NoOperation && Find(pass.devices, b).Some? && b in d.hardware
    requires d.runtime.chargeOnce ==> Adopted(d.runtime, pass).chargeOnceBattery != ""
    ensures var r, seen, own := Adopted(d.runtime, pass), Find(pass.devices, b).value, d.hardware[b].range;
      b in Reconcile(d, pass).now.hardware
      && Reconcile(d, pass).now.hardware[b].range
         == if Wanted(r, seen, pass).Some? && !Settled(r, seen, pass) && seen.controllable then Moved(own, seen.write)
            else own
  {
    var r, seen := Adopted(d.runtime, pass), Find(pass.devices, b).value;
    FindIsListed(pass.devices, b);
    var adopted := Adopt(StartOf(d, pass), pass);
    assert adopted.runtime == r && adopted.session.now.hardware == d.hardware;
    RangesFor(adopted.session, r, pass.devices, Due(r, pass), false, b);
    DueMeans(r, pass);
    TargetMeans(r, seen, pass);
  }

  lemma {:induction false} DueMeans(r: Runtime, pass: Pass)
    ensures Due(r, pass) <==> r.chargeOnce && OnceOver(r, pass)
  {}

  lemma {:induction false} TargetMeans(r: Runtime, seen: Seen, pass: Pass)
    requires r.operation == NoOperation && (r.chargeOnce ==> r.chargeOnceBattery != "")
    ensures Target(r, seen, Due(r, pass)) == Wanted(r, seen, pass)
    ensures Wanted(r, seen, pass).Some? ==>
      (AlreadyApplied(r, seen, Due(r, pass), Wanted(r, seen, pass).value) <==> Settled(r, seen, pass))
  {
    DueMeans(r, pass);
  }
}
