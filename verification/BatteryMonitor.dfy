/**
 One reconciliation pass of the battery monitor. The pass works on the record it loaded at
 its start, while the helper adds fences to the record on disk; the devices it reasons about
 were read before the effects lock was taken.
 */
module BatteryMonitor {
  import opened Outcomes
  import opened BatteryRuntime
  import opened BatteryProtocol

  /** A device as it was read, its configured policy, and how a write to it will turn out. */
  datatype Seen = Seen(
    id: string,
    percentage: nat,
    range: Option<Range>,
    end: Option<nat>,
    behaviour: string,
    controllable: bool,
    configured: Option<Range>,
    accepted: Option<Range>,
    write: RangeWrite,
    fence: LoadSave)

  /** `steer` answers a single behaviour write; the remaining luck answers a restoration. */
  datatype Pass = Pass(
    loads: bool,
    plugged: bool,
    now: nat,
    nativePath: string,
    devices: seq<Seen>,
    adopt: SaveOutcome,
    steer: BehaviourWrite,
    steerFence: LoadSave,
    restoration: Luck,
    keep: SaveOutcome,
    finish: SaveOutcome)

  ghost predicate Present(d: Durable, pass: Pass) {
    forall k :: 0 <= k < |pass.devices| ==> pass.devices[k].id in d.hardware
  }

  function Find(devices: seq<Seen>, id: string): Option<Seen> {
    if devices == [] then None
    else if devices[0].id == id then Some(devices[0])
    else Find(devices[1..], id)
  }

  /** The session so far, the pass's own copy of the record, and a flag. */
  datatype Progress = Progress(session: Session, runtime: Runtime, flag: bool)

  function Adopt(p: Progress, pass: Pass): Progress {
    if p.runtime.chargeOnce && p.runtime.chargeOnceBattery == "" then
      var r := p.runtime.(chargeOnceBattery := pass.nativePath);
      Progress(Save(p.session, r, pass.adopt), r, p.flag)
    else p
  }

  // ---------------------------------------------------------------- operations

  /** Restores behaviour and range; the flag says that the record was cleared. */
  function FinishOperation(p: Progress, battery: string, luck: Luck): Progress
    requires battery in p.session.now.hardware
  {
    var r := p.runtime.(phase := Restoring);
    var marked := if p.runtime.phase == Restoring then p.session else Save(p.session, r, luck.begin);
    if p.runtime.phase != Restoring && !luck.begin.Saved? then Progress(marked, r, false)
    else
      var calmed := SetBehaviour(marked, battery, "auto", luck.behaviour, luck.behaviourFence);
      if r.operationRestore.None? then Progress(calmed, r, false)
      else
        var restored := SetRange(calmed, battery, luck.write, luck.writeFence);
        if luck.behaviour.Done? && luck.write.Confirmed? then
          match r.CompleteRestoration(luck.write.left, luck.write.left == r.operationRestore.value)
          case Some(cleared) => Progress(restored, cleared, true)
          case None => Progress(restored, r, false)
        else Progress(restored, r, false)
  }

  function Steer(p: Progress, seen: Seen, wanted: string, pass: Pass): Progress
    requires seen.id in p.session.now.hardware
  {
    if seen.behaviour == wanted then p.(flag := true)
    else Progress(SetBehaviour(p.session, seen.id, wanted, pass.steer, pass.steerFence), p.runtime, pass.steer.Done?)
  }

  /** The pass restores a calibration: it is fenced, over, or in no phase it could continue. */
  predicate Restores(r: Runtime, seen: Seen, pass: Pass) {
    && r.operation == Calibration
    && (|| seen.id in r.fenced || r.phase == Restoring || r.OperationExpired(pass.now) || !pass.plugged
        || (r.phase != Discharging && !(r.phase == Charging && seen.percentage < 100)))
  }

  function ContinueCalibration(p: Progress, seen: Seen, pass: Pass): Progress
    requires seen.id in p.session.now.hardware
  {
    if p.runtime.phase == Charging then Steer(p, seen, "auto", pass).(flag := false)
    else if seen.percentage > 1 then Steer(p, seen, "force-discharge", pass).(flag := false)
    else
      var steered := Steer(p, seen, "auto", pass);
      if steered.flag then steered.(runtime := p.runtime.(phase := Charging)) else steered
  }

  /** The flag says that the pass must save its record. */
  function ReconcileOperation(p: Progress, pass: Pass): Progress
    requires Present(p.session.now, pass)
  {
    var found := Find(pass.devices, p.runtime.operationBattery);
    if p.runtime.operation == NoOperation || found.None? then p.(flag := false)
    else
      var seen := found.value;
      FindIsListed(pass.devices, p.runtime.operationBattery);
      if Restores(p.runtime, seen, pass) then
        var done := FinishOperation(p, seen.id, pass.restoration);
        if done.flag && seen.id in p.runtime.fenced then done.(runtime := done.runtime.Unfence(seen.id)) else done
      else if seen.id in p.runtime.fenced then p.(flag := false)
      else if p.runtime.operation == Inhibit then Steer(p, seen, "inhibit-charge", pass).(flag := false)
      else ContinueCalibration(p, seen, pass)
  }

  /** The range a restoration read back, once behaviour and range were both confirmed. */
  function ReadBack(p: Progress, pass: Pass): Option<Range> {
    var found := Find(pass.devices, p.runtime.operationBattery);
    if && found.Some? && Restores(p.runtime, found.value, pass)
       && (p.runtime.phase == Restoring || pass.restoration.begin.Saved?) && p.runtime.operationRestore.Some?
       && pass.restoration.behaviour.Done? && pass.restoration.write.Confirmed?
    then Some(pass.restoration.write.left)
    else None
  }

  /** The devices with the first of that id showing another range. */
  function Reread(devices: seq<Seen>, id: string, range: Range): (r: seq<Seen>)
    ensures |r| == |devices| && forall k :: 0 <= k < |r| ==> r[k].id == devices[k].id
  {
    if devices == [] then []
    else if devices[0].id == id
    then [devices[0].(range := Some(range), end := Some(range.end))] + devices[1..]
    else [devices[0]] + Reread(devices[1..], id, range)
  }

  /** The devices as the threshold loop sees them. */
  function DevicesAfter(p: Progress, pass: Pass): (r: seq<Seen>)
    ensures |r| == |pass.devices| && forall k :: 0 <= k < |r| ==> r[k].id == pass.devices[k].id
  {
    match ReadBack(p, pass)
    case None => pass.devices
    case Some(range) => Reread(pass.devices, p.runtime.operationBattery, range)
  }

  lemma {:induction false} FindIsListed(devices: seq<Seen>, id: string)
    ensures Find(devices, id).Some? ==>
      Find(devices, id).value.id == id
      && exists k :: 0 <= k < |devices| && devices[k] == Find(devices, id).value
  {
    if devices != [] && devices[0].id != id {
      FindIsListed(devices[1..], id);
      if Find(devices, id).Some? {
        var k :| 0 <= k < |devices[1..]| && devices[1..][k] == Find(devices, id).value;
        assert devices[k + 1] == Find(devices, id).value;
      }
    }
  }

  // ---------------------------------------------------------------- thresholds

  function Due(r: Runtime, pass: Pass): bool {
    var found := Find(pass.devices, r.chargeOnceBattery);
    var percentage := if found.Some? then found.value.percentage else 0;
    r.chargeOnce && (!pass.plugged || percentage >= 100 || r.ChargeOnceExpired(pass.now))
  }

  function Target(r: Runtime, seen: Seen, due: bool): Option<Range> {
    var once := r.ChargeOnceTargets(seen.id);
    if seen.id in r.fenced && !(once && due) then None
    else if r.operation == Calibration && r.operationBattery == seen.id then
      if r.phase == Restoring then None else Some(Range(0, 100))
    else if once && !due then Some(Range(0, 100))
    else if once && r.restore.Some? then r.restore
    else seen.configured
  }

  predicate AlreadyApplied(r: Runtime, seen: Seen, due: bool, target: Range) {
    var once := r.ChargeOnceTargets(seen.id);
    var temporary := (r.operation == Calibration && r.operationBattery == seen.id) || (once && !due);
    var policy := !temporary && !(once && due);
    || seen.range == Some(target)
    || (temporary && seen.end == Some(100))
    || (policy && seen.accepted.Some? && seen.range == seen.accepted)
  }

  /** One device of the threshold loop: the new session and whether its target is in place. */
  function ApplyTarget(s: Session, r: Runtime, seen: Seen, due: bool): (Session, bool)
    requires seen.id in s.now.hardware
  {
    match Target(r, seen, due)
    case None => (s, false)
    case Some(target) =>
      if AlreadyApplied(r, seen, due, target) then (s, true)
      else if !seen.controllable then (s, false)
      else
        var written := SetRange(s, seen.id, seen.write, seen.fence);
        (written,
         seen.write.Confirmed? && !(r.ChargeOnceTargets(seen.id) && due && seen.write.left != target))
  }

  function ReconcileRanges(s: Session, r: Runtime, devices: seq<Seen>, due: bool, restored: bool): (Session, bool)
    requires forall k :: 0 <= k < |devices| ==> devices[k].id in s.now.hardware
    decreases |devices|
  {
    if devices == [] then (s, restored)
    else
      var (next, applied) := ApplyTarget(s, r, devices[0], due);
      ReconcileRanges(next, r, devices[1..], due,
                      if r.chargeOnce && devices[0].id == r.chargeOnceBattery then applied else restored)
  }

  function FindLast(devices: seq<Seen>, id: string): Option<Seen> {
    if devices == [] then None
    else
      var k := |devices| - 1;
      if devices[k].id == id then Some(devices[k]) else FindLast(devices[..k], id)
  }

  /** What was read of the charge-once battery, and how its write turns out, put its target back. */
  predicate PutsBack(r: Runtime, seen: Seen) {
    match Target(r, seen, true)
    case None => false
    case Some(target) =>
      AlreadyApplied(r, seen, true, target) || (seen.controllable && seen.write == Confirmed(target))
  }

  /** The record a finished charge-once leaves: the pass's own fences, less the battery's. */
  function Finished(r: Runtime): Runtime {
    IDLE.(fenced := Without(r.fenced, r.chargeOnceBattery))
  }

  function StartOf(d: Durable, pass: Pass): Progress {
    Progress(Session([], d), if pass.loads then d.runtime else IDLE, false)
  }

  /** The pass up to its last save; the flag says that a due charge-once was found restored. */
  function BeforeFinish(d: Durable, pass: Pass): Progress
    requires Present(d, pass)
  {
    var adopted := Adopt(StartOf(d, pass), pass);
    var operated := ReconcileOperation(adopted, pass);
    var kept := if operated.flag then Save(operated.session, operated.runtime, pass.keep) else operated.session;
    OperationKeepsDevices(adopted, pass);
    var due := Due(operated.runtime, pass);
    var (ranged, restored) := ReconcileRanges(kept, operated.runtime, DevicesAfter(adopted, pass), due, false);
    Progress(ranged, operated.runtime, due && restored)
  }

  function Reconcile(d: Durable, pass: Pass): Session
    requires Present(d, pass)
  {
    var p := BeforeFinish(d, pass);
    if p.flag then Save(p.session, Finished(p.runtime), pass.finish) else p.session
  }

  lemma {:induction false} FinishKeepsDevices(p: Progress, battery: string, luck: Luck)
    requires battery in p.session.now.hardware
    ensures FinishOperation(p, battery, luck).session.now.hardware.Keys == p.session.now.hardware.Keys
  {}

  lemma {:induction false} SteerKeepsDevices(p: Progress, seen: Seen, wanted: string, pass: Pass)
    requires seen.id in p.session.now.hardware
    ensures Steer(p, seen, wanted, pass).session.now.hardware.Keys == p.session.now.hardware.Keys
  {}

  lemma {:induction false} OperationKeepsDevices(p: Progress, pass: Pass)
    requires Present(p.session.now, pass)
    ensures ReconcileOperation(p, pass).session.now.hardware.Keys == p.session.now.hardware.Keys
  {
    FindIsListed(pass.devices, p.runtime.operationBattery);
    var found := Find(pass.devices, p.runtime.operationBattery);
    if p.runtime.operation != NoOperation && found.Some? {
      FinishKeepsDevices(p, found.value.id, pass.restoration);
      SteerKeepsDevices(p, found.value, "inhibit-charge", pass);
      SteerKeepsDevices(p, found.value, "force-discharge", pass);
      SteerKeepsDevices(p, found.value, "auto", pass);
    }
  }
}
