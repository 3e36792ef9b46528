/** What holds between consecutive durable states, across requests, monitor passes and crashes. */
module BatteryRuns {
  import opened Outcomes
  import opened BatteryRuntime
  import opened BatteryProtocol
  import opened BatteryMonitor

  /** One operation at a time, and a pending one keeps its battery and its range. */
  predicate Orderly(x: Durable, y: Durable) {
    Exclusive(y.runtime) && KeepsPending(x.runtime, y.runtime)
  }

  /** A record that named its battery is dropped only when its range is back on that battery. */
  predicate Releases(x: Durable, y: Durable) {
    var r := x.runtime;
    && (r.chargeOnce && r.restore.Some? && r.chargeOnceBattery != "" && r.chargeOnceBattery in y.hardware
          && !y.runtime.chargeOnce ==>
          y.hardware[r.chargeOnceBattery].range == r.restore.value)
    && (r.operation == Calibration && r.operationRestore.Some? && r.operationBattery in y.hardware
          && y.runtime.operation != Calibration ==>
          y.hardware[r.operationBattery].range == r.operationRestore.value)
  }

  predicate Lawful(x: Durable, y: Durable) {
    Orderly(x, y) && Releases(x, y)
  }

  ghost predicate Chain(s: Session) {
    && Exclusive(s.States()[0].runtime)
    && forall k :: 0 <= k < |s.past| ==> Lawful(s.States()[k], s.States()[k + 1])
  }

  /** Lawful up to the last step, which is at least orderly. */
  ghost predicate NearChain(s: Session) {
    && Exclusive(s.States()[0].runtime)
    && (forall k :: 0 <= k < |s.past| ==> Orderly(s.States()[k], s.States()[k + 1]))
    && (forall k :: 0 <= k < |s.past| - 1 ==> Releases(s.States()[k], s.States()[k + 1]))
  }

  lemma {:induction false} ChainGrows(s: Session, next: Session)
    requires Chain(s)
    requires next == s || (next.past == s.States() && Lawful(s.now, next.now))
    ensures Chain(next)
  {}

  lemma {:induction false} ChainEndsExclusive(s: Session)
    requires Chain(s)
    ensures Exclusive(s.now.runtime)
  {
    if s.past == [] {
      assert s.States()[0] == s.now;
    } else {
      var k := |s.past| - 1;
      assert Lawful(s.States()[k], s.States()[k + 1]);
    }
  }

  /** A write, and the fence it may add, leave every pending operation as it was. */
  lemma {:induction false} SetRangeChain(s: Session, battery: string, w: RangeWrite, fence: LoadSave)
    requires Chain(s) && battery in s.now.hardware
    ensures var next := SetRange(s, battery, w, fence);
      && Chain(next) && next.now.runtime.(fenced := []) == s.now.runtime.(fenced := [])
      && next.now.hardware.Keys == s.now.hardware.Keys
  {
    ChainEndsExclusive(s);
    if !w.Denied? {
      var touched := Touch(s, battery, s.now.hardware[battery].(range := w.left));
      ChainGrows(s, touched);
      if w.Unknown? && fence.Stored? {
        ChainGrows(touched, AddFence(touched, battery, fence));
      }
    }
  }

  lemma {:induction false} SetBehaviourChain(
    s: Session, battery: string, wanted: string, w: BehaviourWrite, fence: LoadSave)
    requires Chain(s) && battery in s.now.hardware
    ensures var next := SetBehaviour(s, battery, wanted, w, fence);
      && Chain(next) && next.now.runtime.(fenced := []) == s.now.runtime.(fenced := [])
      && next.now.hardware.Keys == s.now.hardware.Keys
      && next.now.hardware[battery].range == s.now.hardware[battery].range
  {
    ChainEndsExclusive(s);
    if !w.Refused? {
      var left := if w.Done? then wanted else w.behaviour;
      var touched := Touch(s, battery, s.now.hardware[battery].(behaviour := left));
      ChainGrows(s, touched);
      if w.Unclear? && fence.Stored? {
        ChainGrows(touched, AddFence(touched, battery, fence));
      }
    }
  }

  lemma {:induction false} SaveChain(s: Session, r: Runtime, o: SaveOutcome)
    requires Chain(s) && Lawful(s.now, s.now.(runtime := r))
    ensures Chain(Save(s, r, o))
  {
    ChainEndsExclusive(s);
    ChainGrows(s, Save(s, r, o));
  }

  /** A save that may drop a record: the one step that can break the chain. */
  lemma {:induction false} SaveNear(s: Session, r: Runtime, o: SaveOutcome)
    requires Chain(s) && Orderly(s.now, s.now.(runtime := r))
    ensures NearChain(Save(s, r, o))
    ensures Chain(Save(s, r, o)) <==> o.KeptOld? || Releases(s.now, s.now.(runtime := r))
  {
    ChainEndsExclusive(s);
    var next := Save(s, r, o);
    assert next.States() == s.States() + [next.now];
    forall k | 0 <= k < |s.past|
      ensures Lawful(next.States()[k], next.States()[k + 1])
    {
      assert Lawful(s.States()[k], s.States()[k + 1]);
    }
    assert next.States()[|s.past|] == s.now && next.States()[|s.past| + 1] == next.now;
  }

  lemma {:induction false} SettleChain(s: Session, battery: string, o: LoadSave)
    requires Chain(s)
    ensures Chain(Settle(s, battery, o))
  {
    ChainEndsExclusive(s);
    if o.Stored? {
      SaveChain(s, s.now.runtime.Unfence(battery), o.save);
    }
  }

  // ---------------------------------------------------------------- requests

  datatype Request =
    | RequestChargeOnce(now: nat, range: Range)
    | RequestCalibration(now: nat, range: Range)
    | RequestCancel
    | RequestInhibit(now: nat)
    | RequestResume
    | RequestPolicy(configured: bool)

  function Serve(d: Durable, battery: string, request: Request, luck: Luck): Session
    requires battery in d.hardware
  {
    match request
    case RequestChargeOnce(now, range) => ChargeOnce(d, now, battery, range, luck)
    case RequestCalibration(now, range) => StartCalibrating(d, now, battery, range, luck)
    case RequestCancel => CancelCalibration(d, battery, luck)
    case RequestInhibit(now) => StartInhibiting(d, now, battery, luck)
    case RequestResume => StopInhibiting(d, battery, luck)
    case RequestPolicy(configured) => ApplyPolicy(d, battery, configured, luck)
  }

  /** The request drops a record it made while the device shows another range than the recorded one. */
  predicate Abandons(d: Durable, battery: string, request: Request, luck: Luck)
    requires battery in d.hardware
  {
    var begun := luck.loads && !d.runtime.HasOperation() && luck.begin.Saved? && !luck.undo.KeptOld?;
    match request
    case RequestChargeOnce(_, range) =>
      begun && luck.write.Denied? && battery != "" && d.hardware[battery].range != range
    case RequestCalibration(_, range) =>
      && begun
      && (match luck.write
          case Denied => d.hardware[battery].range != range
          case Unknown(_) => false
          case Confirmed(left) =>
            && luck.behaviour.Refused? && !luck.undoWrite.Unknown?
            && (if luck.undoWrite.Denied? then left else luck.undoWrite.left) != range)
    case _ => false
  }

  lemma {:induction false} ChargeOnceLawful(d: Durable, now: nat, battery: string, range: Range, luck: Luck)
    requires Exclusive(d.runtime) && battery in d.hardware
    ensures NearChain(ChargeOnce(d, now, battery, range, luck))
    ensures Chain(ChargeOnce(d, now, battery, range, luck))
            <==> !Abandons(d, battery, RequestChargeOnce(now, range), luck)
  {
    var s := Session([], d);
    if luck.loads && !d.runtime.HasOperation() {
      var r := StartChargeOnce(now, battery, range).(fenced := d.runtime.fenced);
      SaveChain(s, r, luck.begin);
      if luck.begin.Saved? {
        var begun := Save(s, r, luck.begin);
        SetRangeChain(begun, battery, luck.write, luck.writeFence);
        var written := SetRange(begun, battery, luck.write, luck.writeFence);
        if luck.write.Confirmed? {
          SettleChain(written, battery, luck.settle);
        } else if luck.write.Denied? {
          SaveNear(written, d.runtime, luck.undo);
        }
      }
    }
  }

  /** Put together for any session that has just recorded a calibration of `battery`. */
  lemma {:induction false} RollbackLawful(s: Session, battery: string, previous: Runtime, range: Range, luck: Luck)
    requires Chain(s) && battery in s.now.hardware && !previous.HasOperation()
    requires !s.now.runtime.chargeOnce && s.now.runtime.operation == Calibration
    requires s.now.runtime.operationBattery == battery && s.now.runtime.operationRestore == Some(range)
    ensures NearChain(RollbackCalibration(s, battery, previous, luck))
    ensures Chain(RollbackCalibration(s, battery, previous, luck))
            <==> || luck.undo.KeptOld? || luck.undoWrite.Unknown?
                 || (if luck.undoWrite.Denied? then s.now.hardware[battery].range else luck.undoWrite.left) == range
  {
    SetRangeChain(s, battery, luck.undoWrite, luck.undoFence);
    var back := SetRange(s, battery, luck.undoWrite, luck.undoFence);
    if !luck.undoWrite.Unknown? {
      SaveNear(back, previous, luck.undo);
    }
  }

  lemma {:induction false} CalibrationLawful(d: Durable, now: nat, battery: string, range: Range, luck: Luck)
    requires Exclusive(d.runtime) && battery in d.hardware
    ensures NearChain(StartCalibrating(d, now, battery, range, luck))
    ensures Chain(StartCalibrating(d, now, battery, range, luck))
            <==> !Abandons(d, battery, RequestCalibration(now, range), luck)
  {
    var s := Session([], d);
    if luck.loads && !d.runtime.HasOperation() {
      var r := StartCalibration(now, battery, range).(fenced := d.runtime.fenced);
      SaveChain(s, r, luck.begin);
      if luck.begin.Saved? {
        var begun := Save(s, r, luck.begin);
        SetRangeChain(begun, battery, luck.write, luck.writeFence);
        var written := SetRange(begun, battery, luck.write, luck.writeFence);
        if luck.write.Denied? {
          SaveNear(written, d.runtime, luck.undo);
        } else if luck.write.Confirmed? {
          SetBehaviourChain(written, battery, "force-discharge", luck.behaviour, luck.behaviourFence);
          var forced := SetBehaviour(written, battery, "force-discharge", luck.behaviour, luck.behaviourFence);
          if luck.behaviour.Done? {
            SettleChain(forced, battery, luck.settle);
          } else if luck.behaviour.Refused? {
            RollbackLawful(forced, battery, d.runtime, range, luck);
          }
        }
      }
    }
  }

  lemma {:induction false} CancelLawful(d: Durable, battery: string, luck: Luck)
    requires Exclusive(d.runtime) && battery in d.hardware
    ensures Chain(CancelCalibration(d, battery, luck))
  {
    var s := Session([], d);
    if luck.loads && d.runtime.operation == Calibration && d.runtime.operationBattery == battery {
      var r := d.runtime.(phase := Restoring);
      SaveChain(s, r, luck.begin);
      if luck.begin.Saved? {
        var marked := Save(s, r, luck.begin);
        SetBehaviourChain(marked, battery, "auto", luck.behaviour, luck.behaviourFence);
        var calmed := SetBehaviour(marked, battery, "auto", luck.behaviour, luck.behaviourFence);
        if luck.behaviour.Done? && r.operationRestore.Some? {
          SetRangeChain(calmed, battery, luck.write, luck.writeFence);
          var restored := SetRange(calmed, battery, luck.write, luck.writeFence);
          if luck.write.Confirmed? && luck.write.left == r.operationRestore.value {
            SaveChain(restored, r.ClearOperation(), luck.finish);
            SettleChain(Save(restored, r.ClearOperation(), luck.finish), battery, luck.settle);
          }
        }
      }
    }
  }

  lemma {:induction false} InhibitLawful(d: Durable, now: nat, battery: string, luck: Luck)
    requires Exclusive(d.runtime) && battery in d.hardware
    ensures Chain(StartInhibiting(d, now, battery, luck))
    ensures Chain(StopInhibiting(d, battery, luck))
  {
    var s := Session([], d);
    if luck.loads && !d.runtime.HasOperation() {
      var r := StartInhibit(now, battery).(fenced := d.runtime.fenced);
      SaveChain(s, r, luck.begin);
      if luck.begin.Saved? {
        var begun := Save(s, r, luck.begin);
        SetBehaviourChain(begun, battery, "inhibit-charge", luck.behaviour, luck.behaviourFence);
        var held := SetBehaviour(begun, battery, "inhibit-charge", luck.behaviour, luck.behaviourFence);
        if luck.behaviour.Done? {
          SettleChain(held, battery, luck.settle);
        } else if luck.behaviour.Refused? {
          SaveChain(held, d.runtime, luck.undo);
        }
      }
    }
    if luck.loads && d.runtime.operation == Inhibit && d.runtime.operationBattery == battery {
      SetBehaviourChain(s, battery, "auto", luck.behaviour, luck.behaviourFence);
      var freed := SetBehaviour(s, battery, "auto", luck.behaviour, luck.behaviourFence);
      if luck.behaviour.Done? {
        SaveChain(freed, d.runtime.ClearOperation(), luck.finish);
        SettleChain(Save(freed, d.runtime.ClearOperation(), luck.finish), battery, luck.settle);
      }
    }
  }

  /** Every request is orderly at each durable step, and drops no record early exactly when it abandons none. */
  lemma {:induction false} RequestLawful(d: Durable, battery: string, request: Request, luck: Luck)
    requires Exclusive(d.runtime) && battery in d.hardware
    ensures NearChain(Serve(d, battery, request, luck))
    ensures Chain(Serve(d, battery, request, luck)) <==> !Abandons(d, battery, request, luck)
  {
    match request
    case RequestChargeOnce(now, range) => ChargeOnceLawful(d, now, battery, range, luck);
    case RequestCalibration(now, range) => CalibrationLawful(d, now, battery, range, luck);
    case RequestCancel => CancelLawful(d, battery, luck);
    case RequestInhibit(now) => InhibitLawful(d, now, battery, luck);
    case RequestResume => InhibitLawful(d, 0, battery, luck);
    case RequestPolicy(configured) =>
      var s := Session([], d);
      SetRangeChain(s, battery, luck.write, luck.writeFence);
      SettleChain(SetRange(s, battery, luck.write, luck.writeFence), battery, luck.settle);
  }

  // ---------------------------------------------------------------- monitor passes

  /** The pass's own record agrees with the one on disk about what is pending. */
  predicate Tracks(m: Runtime, d: Runtime) {
    && Exclusive(m)
    && (m.HasOperation() ==>
          && m.chargeOnce == d.chargeOnce && m.restore == d.restore
          && (m.chargeOnceBattery == d.chargeOnceBattery || d.chargeOnceBattery == "")
          && m.operation == d.operation && m.operationBattery == d.operationBattery
          && m.operationRestore == d.operationRestore)
  }

  predicate DistinctDevices(devices: seq<Seen>) {
    forall i, j :: 0 <= i < j < |devices| ==> devices[i].id != devices[j].id
  }

  lemma {:induction false} AdoptLawful(p: Progress, pass: Pass)
    requires Chain(p.session) && Tracks(p.runtime, p.session.now.runtime)
    ensures Chain(Adopt(p, pass).session) && Tracks(Adopt(p, pass).runtime, Adopt(p, pass).session.now.runtime)
    ensures Adopt(p, pass).session.now.hardware == p.session.now.hardware
  {}

  /** A restoration clears the pass's record only with the recorded range back on the device. */
  lemma {:induction false} FinishLawful(p: Progress, battery: string, luck: Luck)
    requires Chain(p.session) && Tracks(p.runtime, p.session.now.runtime) && battery in p.session.now.hardware
    requires p.runtime.operation == Calibration && p.runtime.operationBattery == battery
    ensures var done := FinishOperation(p, battery, luck);
      && Chain(done.session) && done.session.now.hardware.Keys == p.session.now.hardware.Keys
      && (done.flag ==>
            && !done.runtime.HasOperation()
            && Lawful(done.session.now, done.session.now.(runtime := done.runtime)))
      && (!done.flag ==> Tracks(done.runtime, done.session.now.runtime))
  {
    var r := p.runtime.(phase := Restoring);
    var marked := p.session;
    if p.runtime.phase != Restoring {
      SaveChain(p.session, r, luck.begin);
      marked := Save(p.session, r, luck.begin);
    }
    if p.runtime.phase == Restoring || luck.begin.Saved? {
      SetBehaviourChain(marked, battery, "auto", luck.behaviour, luck.behaviourFence);
      var calmed := SetBehaviour(marked, battery, "auto", luck.behaviour, luck.behaviourFence);
      SetRangeChain(calmed, battery, luck.write, luck.writeFence);
    }
  }

  lemma {:induction false} SteerLawful(p: Progress, seen: Seen, wanted: string, pass: Pass)
    requires Chain(p.session) && Tracks(p.runtime, p.session.now.runtime) && seen.id in p.session.now.hardware
    ensures var next := Steer(p, seen, wanted, pass);
      && Chain(next.session) && next.runtime == p.runtime && Tracks(p.runtime, next.session.now.runtime)
      && next.session.now.hardware.Keys == p.session.now.hardware.Keys
  {
    SetBehaviourChain(p.session, seen.id, wanted, pass.steer, pass.steerFence);
  }

  /** The record a flagged step leaves may be saved lawfully over the one on disk. */
  ghost predicate Savable(p: Progress) {
    && Chain(p.session) && Exclusive(p.runtime) && !p.runtime.chargeOnce
    && (p.flag ==> Lawful(p.session.now, p.session.now.(runtime := p.runtime)))
  }

  lemma {:induction false} ContinueLawful(p: Progress, seen: Seen, pass: Pass)
    requires Chain(p.session) && Tracks(p.runtime, p.session.now.runtime) && seen.id in p.session.now.hardware
    requires p.runtime.operation == Calibration && p.runtime.operationBattery == seen.id
    ensures Savable(ContinueCalibration(p, seen, pass))
  {
    SteerLawful(p, seen, "auto", pass);
    SteerLawful(p, seen, "force-discharge", pass);
  }

  /** After the operation is reconciled the pass may save its record, and does when flagged. */
  lemma {:induction false} OperationLawful(p: Progress, pass: Pass)
    requires Chain(p.session) && Tracks(p.runtime, p.session.now.runtime) && Present(p.session.now, pass)
    ensures var next := ReconcileOperation(p, pass);
      && (p.runtime.operation != NoOperation ==> Savable(next))
      && (p.runtime.operation == NoOperation ==> next == p.(flag := false))
  {
    var found := Find(pass.devices, p.runtime.operationBattery);
    FindIsListed(pass.devices, p.runtime.operationBattery);
    if p.runtime.operation != NoOperation && found.Some? {
      var seen := found.value;
      if p.runtime.operation == Inhibit {
        SteerLawful(p, seen, "inhibit-charge", pass);
      } else if Restores(p.runtime, seen, pass) {
        FinishLawful(p, seen.id, pass.restoration);
      } else {
        ContinueLawful(p, seen, pass);
      }
    }
  }

  lemma {:induction false} ApplyTargetChain(s: Session, r: Runtime, seen: Seen, due: bool)
    requires Chain(s) && seen.id in s.now.hardware
    ensures var next := ApplyTarget(s, r, seen, due).0;
      && Chain(next) && next.now.runtime.(fenced := []) == s.now.runtime.(fenced := [])
      && next.now.hardware.Keys == s.now.hardware.Keys
      && (forall b :: b in s.now.hardware && b != seen.id ==> next.now.hardware[b] == s.now.hardware[b])
  {
    SetRangeChain(s, seen.id, seen.write, seen.fence);
  }

  lemma {:induction false} RangesChain(s: Session, r: Runtime, devices: seq<Seen>, due: bool, restored: bool)
    requires Chain(s) && forall k :: 0 <= k < |devices| ==> devices[k].id in s.now.hardware
    ensures var next := ReconcileRanges(s, r, devices, due, restored).0;
      Chain(next) && next.now.runtime.(fenced := []) == s.now.runtime.(fenced := [])
      && next.now.hardware.Keys == s.now.hardware.Keys
    decreases |devices|
  {
    if devices != [] {
      ApplyTargetChain(s, r, devices[0], due);
      var (next, applied) := ApplyTarget(s, r, devices[0], due);
      RangesChain(next, r, devices[1..], due,
                  if r.chargeOnce && devices[0].id == r.chargeOnceBattery then applied else restored);
    }
  }

  /** Devices other than the battery leave its hardware and the flag alone. */
  lemma {:induction false} OthersLeaveBattery(s: Session, r: Runtime, devices: seq<Seen>, restored: bool)
    requires Chain(s) && r.chargeOnce && forall k :: 0 <= k < |devices| ==> devices[k].id in s.now.hardware
    requires forall k :: 0 <= k < |devices| ==> devices[k].id != r.chargeOnceBattery
    ensures var (next, back) := ReconcileRanges(s, r, devices, true, restored);
      && back == restored && next.now.hardware.Keys == s.now.hardware.Keys
      && (r.chargeOnceBattery in s.now.hardware ==>
            next.now.hardware[r.chargeOnceBattery] == s.now.hardware[r.chargeOnceBattery])
    decreases |devices|
  {
    if devices != [] {
      ApplyTargetChain(s, r, devices[0], true);
      OthersLeaveBattery(ApplyTarget(s, r, devices[0], true).0, r, devices[1..], restored);
    }
  }

  /**
   What a pass with a due charge-once makes of its battery: unread, it is not restored; read at the
   recorded range, it counts as restored untouched; otherwise only a write of that range restores it.
   */
  lemma {:induction false} RestoredExactly(s: Session, r: Runtime, devices: seq<Seen>)
    requires Chain(s) && r.chargeOnce && r.operation == NoOperation && r.restore.Some?
    requires DistinctDevices(devices) && forall j :: 0 <= j < |devices| ==> devices[j].id in s.now.hardware
    ensures var (next, back) := ReconcileRanges(s, r, devices, true, false);
      var found := Find(devices, r.chargeOnceBattery);
      && next.now.hardware.Keys == s.now.hardware.Keys
      && (found.None? ==> !back)
      && (found.Some? ==> r.chargeOnceBattery in s.now.hardware)
      && (found.Some? && found.value.range == r.restore ==>
            back && next.now.hardware[r.chargeOnceBattery] == s.now.hardware[r.chargeOnceBattery])
      && (found.Some? && found.value.range != r.restore && back ==>
            next.now.hardware[r.chargeOnceBattery].range == r.restore.value)
    decreases |devices|
  {
    if devices != [] {
      var (next, applied) := ApplyTarget(s, r, devices[0], true);
      ApplyTargetChain(s, r, devices[0], true);
      if devices[0].id == r.chargeOnceBattery {
        OthersLeaveBattery(next, r, devices[1..], applied);
      } else {
        RestoredExactly(next, r, devices[1..]);
      }
    }
  }

  lemma {:induction false} FindLastTail(devices: seq<Seen>, id: string)
    requires devices != []
    ensures FindLast(devices, id)
         == if FindLast(devices[1..], id).Some? then FindLast(devices[1..], id)
            else if devices[0].id == id then Some(devices[0]) else None
    decreases |devices|
  {
    var k := |devices| - 1;
    if k > 0 {
      assert devices[..k][1..] == devices[1..][..k - 1];
      FindLastTail(devices[..k], id);
    }
  }

  /** The restored flag in terms of what the pass was given: its last reading of the battery decides. */
  lemma {:induction false} RestoredFlag(s: Session, r: Runtime, devices: seq<Seen>, restored: bool)
    requires r.chargeOnce && forall k :: 0 <= k < |devices| ==> devices[k].id in s.now.hardware
    ensures var found := FindLast(devices, r.chargeOnceBattery);
      ReconcileRanges(s, r, devices, true, restored).1
      == if found.Some? then PutsBack(r, found.value) else restored
    decreases |devices|
  {
    if devices != [] {
      var (next, applied) := ApplyTarget(s, r, devices[0], true);
      RestoredFlag(next, r, devices[1..], if devices[0].id == r.chargeOnceBattery then applied else restored);
      FindLastTail(devices, r.chargeOnceBattery);
    }
  }

  /** The record of a charge-once with the battery that the pass works for. */
  function Adopted(r: Runtime, pass: Pass): Runtime {
    if r.chargeOnce && r.chargeOnceBattery == "" then r.(chargeOnceBattery := pass.nativePath) else r
  }

  /**
   The pass finishes a due charge-once on the strength of a reading that is no longer true: the battery
   was read at the recorded range and has another one.
   */
  predicate StaleFinish(d: Durable, pass: Pass) {
    var r := Adopted(d.runtime, pass);
    var found := Find(pass.devices, r.chargeOnceBattery);
    && pass.loads && !pass.finish.KeptOld? && (d.runtime.chargeOnceBattery != "" || !pass.adopt.KeptOld?)
    && Due(r, pass) && r.restore.Some? && r.chargeOnceBattery != ""
    && found.Some? && found.value.range == r.restore
    && found.value.id in d.hardware && d.hardware[found.value.id].range != r.restore.value
  }

  /** The pass up to its last save. */
  lemma {:induction false} BeforeFinishLawful(d: Durable, pass: Pass)
    requires Exclusive(d.runtime) && Present(d, pass)
    ensures var p := BeforeFinish(d, pass);
      && Chain(p.session) && p.session.now.hardware.Keys == d.hardware.Keys
      && (p.flag ==>
            && pass.loads && Due(Adopted(d.runtime, pass), pass) && p.runtime == Adopted(d.runtime, pass)
            && p.runtime.operation == NoOperation && DevicesAfter(Adopt(StartOf(d, pass), pass), pass) == pass.devices)
  {
    var start := StartOf(d, pass);
    AdoptLawful(start, pass);
    var adopted := Adopt(start, pass);
    OperationLawful(adopted, pass);
    OperationKeepsDevices(adopted, pass);
    var operated := ReconcileOperation(adopted, pass);
    var kept := operated.session;
    if operated.flag {
      SaveChain(operated.session, operated.runtime, pass.keep);
      kept := Save(operated.session, operated.runtime, pass.keep);
    }
    var due := Due(operated.runtime, pass);
    RangesChain(kept, operated.runtime, DevicesAfter(adopted, pass), due, false);
  }

  /** Every pass is orderly at each durable step. */
  lemma {:induction false} PassOrderly(d: Durable, pass: Pass)
    requires Exclusive(d.runtime) && Present(d, pass)
    ensures NearChain(Reconcile(d, pass))
    ensures Reconcile(d, pass).now.hardware.Keys == d.hardware.Keys
  {
    BeforeFinishLawful(d, pass);
    var p := BeforeFinish(d, pass);
    if p.flag {
      ChainEndsExclusive(p.session);
      SaveNear(p.session, Finished(p.runtime), pass.finish);
    }
  }

  /** ... and drops no record early exactly when it does not finish on a stale reading. */
  lemma {:induction false} PassReleases(d: Durable, pass: Pass)
    requires Exclusive(d.runtime) && Present(d, pass) && DistinctDevices(pass.devices)
    ensures Chain(Reconcile(d, pass)) <==> !StaleFinish(d, pass)
  {
    BeforeFinishLawful(d, pass);
    var p := BeforeFinish(d, pass);
    var start := StartOf(d, pass);
    var adopted := Adopt(start, pass);
    AdoptLawful(start, pass);
    var r := Adopted(d.runtime, pass);
    FindIsListed(pass.devices, r.chargeOnceBattery);
    if pass.loads && Due(r, pass) && r.operation == NoOperation {
      assert adopted.runtime == r && DevicesAfter(adopted, pass) == pass.devices;
      RangesChain(adopted.session, r, pass.devices, true, false);
      if r.restore.Some? {
        RestoredExactly(adopted.session, r, pass.devices);
      }
    }
    if p.flag {
      ChainEndsExclusive(p.session);
      SaveNear(p.session, Finished(p.runtime), pass.finish);
    }
  }

  // ---------------------------------------------------------------- whole runs

  /** A request or a pass, and the number of its durable effects completed before a crash. */
  datatype Event =
    | Served(battery: string, request: Request, luck: Luck, cut: nat)
    | Passed(pass: Pass, cut: nat)

  /** Requests are for devices there are, and passes have read such devices. */
  ghost predicate Possible(d: Durable, e: Event) {
    match e
    case Served(battery, _, _, _) => battery in d.hardware
    case Passed(pass, _) => Present(d, pass)
  }

  ghost function SessionOf(d: Durable, e: Event): Session
    requires Possible(d, e)
  {
    match e
    case Served(battery, request, luck, _) => Serve(d, battery, request, luck)
    case Passed(pass, _) => Reconcile(d, pass)
  }

  /** The durable states that were reached: all of them, or those up to the crash. */
  ghost function Reached(d: Durable, e: Event): (states: seq<Durable>)
    requires Possible(d, e)
    ensures states != []
  {
    var states := SessionOf(d, e).States();
    if e.cut < |states| then states[..e.cut + 1] else states
  }

  ghost function After(d: Durable, e: Event): Durable
    requires Possible(d, e)
  {
    var states := Reached(d, e);
    states[|states| - 1]
  }

  ghost predicate PossibleRun(d: Durable, events: seq<Event>)
    decreases |events|
  {
    events != [] ==> Possible(d, events[0]) && PossibleRun(After(d, events[0]), events[1..])
  }

  ghost predicate OrderlySteps(states: seq<Durable>) {
    forall k :: 0 <= k < |states| - 1 ==> Orderly(states[k], states[k + 1])
  }

  ghost predicate ReleasingSteps(states: seq<Durable>) {
    forall k :: 0 <= k < |states| - 1 ==> Releases(states[k], states[k + 1])
  }

  ghost predicate RunIsOrderly(d: Durable, events: seq<Event>)
    requires PossibleRun(d, events)
    decreases |events|
  {
    events != [] ==> OrderlySteps(Reached(d, events[0])) && RunIsOrderly(After(d, events[0]), events[1..])
  }

  lemma {:induction false} EventNear(d: Durable, e: Event)
    requires Exclusive(d.runtime) && Possible(d, e)
    ensures NearChain(SessionOf(d, e))
    ensures OrderlySteps(Reached(d, e)) && Exclusive(After(d, e).runtime)
  {
    match e {
      case Served(battery, request, luck, _) => RequestLawful(d, battery, request, luck);
      case Passed(pass, _) => PassOrderly(d, pass);
    }
    var states, reached := SessionOf(d, e).States(), Reached(d, e);
    forall k | 0 <= k < |reached| - 1
      ensures Orderly(reached[k], reached[k + 1])
    {
      assert Orderly(states[k], states[k + 1]);
    }
    if |reached| > 1 {
      assert Orderly(reached[|reached| - 2], reached[|reached| - 2 + 1]);
    }
  }

  /**
   Over every run of requests, passes and crashes, whatever their outcomes and readings: never two
   operations at once, and a pending one keeps its battery and its range until it is cleared.
   */
  lemma {:induction false} RunOrderly(d: Durable, events: seq<Event>)
    requires Exclusive(d.runtime) && PossibleRun(d, events)
    ensures RunIsOrderly(d, events)
    decreases |events|
  {
    if events != [] {
      EventNear(d, events[0]);
      RunOrderly(After(d, events[0]), events[1..]);
    }
  }

  ghost predicate RunReleases(d: Durable, events: seq<Event>)
    requires PossibleRun(d, events)
    decreases |events|
  {
    events != [] ==> ReleasingSteps(Reached(d, events[0])) && RunReleases(After(d, events[0]), events[1..])
  }

  /** The event reaches its last step, and that step drops a record early. */
  ghost predicate DropsEarly(d: Durable, e: Event)
    requires Possible(d, e)
  {
    && e.cut >= |SessionOf(d, e).past|
    && match e
       case Served(battery, request, luck, _) => Abandons(d, battery, request, luck)
       case Passed(pass, _) => StaleFinish(d, pass)
  }

  ghost predicate NeverDropsEarly(d: Durable, events: seq<Event>)
    requires PossibleRun(d, events)
    decreases |events|
  {
    events != [] ==> !DropsEarly(d, events[0]) && NeverDropsEarly(After(d, events[0]), events[1..])
  }

  ghost predicate DistinctReadings(events: seq<Event>) {
    forall k :: 0 <= k < |events| && events[k].Passed? ==> DistinctDevices(events[k].pass.devices)
  }

  lemma {:induction false} EventReleases(d: Durable, e: Event)
    requires Exclusive(d.runtime) && Possible(d, e) && (e.Passed? ==> DistinctDevices(e.pass.devices))
    ensures ReleasingSteps(Reached(d, e)) <==> !DropsEarly(d, e)
  {
    EventNear(d, e);
    match e {
      case Served(battery, request, luck, _) => RequestLawful(d, battery, request, luck);
      case Passed(pass, _) => PassReleases(d, pass);
    }
    var s := SessionOf(d, e);
    var states, reached := s.States(), Reached(d, e);
    if e.cut >= |s.past| {
      assert reached == states;
      assert Chain(s) <==> ReleasingSteps(states) by {
        if ReleasingSteps(states) {
          forall k | 0 <= k < |s.past| ensures Lawful(states[k], states[k + 1]) {
            assert Orderly(states[k], states[k + 1]) && Releases(states[k], states[k + 1]);
          }
        } else {
          var k :| 0 <= k < |states| - 1 && !Releases(states[k], states[k + 1]);
          assert !Lawful(states[k], states[k + 1]);
        }
      }
    } else {
      forall k | 0 <= k < |reached| - 1 ensures Releases(reached[k], reached[k + 1]) {
        assert Releases(states[k], states[k + 1]);
      }
    }
  }

  /** Over every run, records are dropped only with their range back exactly when no event drops one early. */
  lemma {:induction false} RunReleasesExactly(d: Durable, events: seq<Event>)
    requires Exclusive(d.runtime) && PossibleRun(d, events) && DistinctReadings(events)
    ensures RunReleases(d, events) <==> NeverDropsEarly(d, events)
    decreases |events|
  {
    if events != [] {
      EventNear(d, events[0]);
      EventReleases(d, events[0]);
      RunReleasesExactly(After(d, events[0]), events[1..]);
    }
  }

  // ---------------------------------------------------------------- stale readings

  /** A pass that was given readings from before a charge-once started. */
  function StalePass(luck: Luck): Pass {
    var seen := Seen("BAT0", 50, Some(Range(75, 80)), Some(80), "auto", true, None, None, Denied, Unread);
    Pass(true, false, 1, "BAT0", [seen], Saved, Refused, Unread, luck, Saved, Saved)
  }

  /** With such a reading the record is dropped while the device is still open to 0-100. */
  lemma {:induction false} StaleReadingDropsRecord(luck: Luck)
    ensures var d := Durable(StartChargeOnce(0, "BAT0", Range(75, 80)), map["BAT0" := Device(Range(0, 100), "auto")]);
      && Present(d, StalePass(luck))
      && StaleFinish(d, StalePass(luck))
      && Reconcile(d, StalePass(luck)).now == d.(runtime := IDLE)
      && !Releases(d, Reconcile(d, StalePass(luck)).now)
  {}
}
