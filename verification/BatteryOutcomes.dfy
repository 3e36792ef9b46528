/** What requests and passes leave on the devices, and why no device is left switched with nothing recorded. */
module BatteryOutcomes {
  import opened Outcomes
  import opened BatteryRuntime
  import opened BatteryProtocol
  import opened BatteryMonitor
  import opened BatteryRuns

  // ---------------------------------------------------------------- requests

  /** What a behaviour write that asked for `wanted` leaves. */
  function Left(own: string, wanted: string, w: BehaviourWrite): string {
    match w
    case Done => wanted
    case Refused => own
    case Unclear(left) => left
  }

  /** Starting may proceed: the record can be read, names no operation, and the new one was saved. */
  predicate Begins(d: Durable, luck: Luck) {
    luck.loads && !d.runtime.chargeOnce && d.runtime.operation == NoOperation && luck.begin.Saved?
  }

  /** The pending operation is of this kind and on this battery. */
  predicate Pending(r: Runtime, kind: OperationKind, battery: string) {
    r.operation == kind && r.operationBattery == battery
  }

  /** The charge behaviour a request leaves on its device, for every outcome of every call. */
  function BehaviourAfter(d: Durable, battery: string, request: Request, luck: Luck): string
    requires battery in d.hardware
  {
    var own := d.hardware[battery].behaviour;
    match request
    case RequestChargeOnce(_, _) => own
    case RequestPolicy(_) => own
    case RequestCalibration(_, _) =>
      if Begins(d, luck) && luck.write.Confirmed? then Left(own, "force-discharge", luck.behaviour) else own
    case RequestInhibit(_) => if Begins(d, luck) then Left(own, "inhibit-charge", luck.behaviour) else own
    case RequestCancel =>
      if luck.loads && Pending(d.runtime, Calibration, battery) && luck.begin.Saved?
      then Left(own, "auto", luck.behaviour) else own
    case RequestResume =>
      if luck.loads && Pending(d.runtime, Inhibit, battery) then Left(own, "auto", luck.behaviour) else own
  }

  function Moved(own: Range, w: RangeWrite): Range {
    if w.Denied? then own else w.left
  }

  /** The range a request leaves on its device. */
  function RangeLeft(d: Durable, battery: string, request: Request, luck: Luck): Range
    requires battery in d.hardware
  {
    var own := d.hardware[battery].range;
    match request
    case RequestChargeOnce(_, _) => if Begins(d, luck) then Moved(own, luck.write) else own
    case RequestPolicy(configured) =>
      if luck.loads && !d.runtime.HasOperation() && configured then Moved(own, luck.write) else own
    case RequestCalibration(_, _) =>
      if !Begins(d, luck) then own
      else if luck.write.Confirmed? && luck.behaviour.Refused? then Moved(luck.write.left, luck.undoWrite)
      else Moved(own, luck.write)
    case RequestInhibit(_) => own
    case RequestResume => own
    case RequestCancel =>
      if luck.loads && Pending(d.runtime, Calibration, battery) && luck.begin.Saved? && luck.behaviour.Done?
         && d.runtime.operationRestore.Some?
      then Moved(own, luck.write) else own
  }

  /** A request touches only its own device, and leaves it so. */
  lemma {:induction false} RequestLeaves(d: Durable, battery: string, request: Request, luck: Luck)
    requires battery in d.hardware
    ensures var left := Device(RangeLeft(d, battery, request, luck), BehaviourAfter(d, battery, request, luck));
      Serve(d, battery, request, luck).now.hardware == d.hardware[battery := left]
  {
    match request
    case RequestChargeOnce(_, _) =>
    case RequestCalibration(now, range) => CalibrationLeaves(d, now, battery, range, luck);
    case RequestCancel => CancelLeaves(d, battery, luck);
    case RequestInhibit(_) =>
    case RequestResume =>
    case RequestPolicy(_) =>
  }

  lemma {:induction false} CancelLeaves(d: Durable, battery: string, luck: Luck)
    requires battery in d.hardware
    ensures var left :=
        Device(RangeLeft(d, battery, RequestCancel, luck), BehaviourAfter(d, battery, RequestCancel, luck));
      CancelCalibration(d, battery, luck).now.hardware == d.hardware[battery := left]
  {}

  lemma {:induction false} CalibrationLeaves(d: Durable, now: nat, battery: string, range: Range, luck: Luck)
    requires battery in d.hardware
    ensures var request := RequestCalibration(now, range);
      StartCalibrating(d, now, battery, range, luck).now.hardware
      == d.hardware[battery := Device(RangeLeft(d, battery, request, luck), BehaviourAfter(d, battery, request, luck))]
  {}

  /** Every call of a request succeeds: what was asked is what was left. */
  predicate Granted(luck: Luck) {
    && luck.loads && luck.begin.Saved? && luck.write.Confirmed? && luck.behaviour.Done?
    && luck.finish.Saved? && luck.settle == Stored(Saved)
  }

  /** The request finds the record as it needs it. */
  predicate Acts(d: Durable, battery: string, request: Request, luck: Luck) {
    match request
    case RequestCancel =>
      && Pending(d.runtime, Calibration, battery) && luck.write.Confirmed?
      && d.runtime.operationRestore == Some(luck.write.left)
    case RequestResume => Pending(d.runtime, Inhibit, battery)
    case RequestPolicy(configured) => configured && !d.runtime.HasOperation()
    case _ => !d.runtime.HasOperation()
  }

  /**
   What a request that is granted leaves recorded: a start its operation with everything needed to end it, a
   cancellation or resumption nothing. Its battery is not fenced, and other fences stay.
   */
  lemma {:induction false} GrantedRecords(d: Durable, battery: string, request: Request, luck: Luck)
    requires battery in d.hardware && Granted(luck) && Exclusive(d.runtime)
    ensures var r := Serve(d, battery, request, luck).now.runtime;
      match request
      case RequestChargeOnce(now, range) =>
        !d.runtime.HasOperation() ==>
          && r.chargeOnce && r.operation == NoOperation && r.chargeOnceBattery == battery && r.restore == Some(range)
          && r.chargeOnceStarted == now
      case RequestCalibration(now, range) =>
        !d.runtime.HasOperation() ==>
          && !r.chargeOnce && Pending(r, Calibration, battery) && r.operationRestore == Some(range)
          && r.phase == BatteryRuntime.Discharging && r.operationStarted == now
      case RequestInhibit(now) =>
        !d.runtime.HasOperation() ==>
          !r.chargeOnce && Pending(r, Inhibit, battery) && r.operationStarted == now
      case RequestCancel =>
        Pending(d.runtime, Calibration, battery) && d.runtime.operationRestore == Some(luck.write.left) ==>
          !r.HasOperation()
      case RequestResume => Pending(d.runtime, Inhibit, battery) ==> !r.HasOperation()
      case RequestPolicy(_) => r.(fenced := []) == d.runtime.(fenced := [])
    ensures var r := Serve(d, battery, request, luck).now.runtime;
      forall b :: b != battery ==> (b in r.fenced <==> b in d.runtime.fenced)
    ensures Acts(d, battery, request, luck) ==> battery !in Serve(d, battery, request, luck).now.runtime.fenced
  {
    WithoutRemoves(d.runtime.fenced, battery);
  }

  /** While an operation is pending, starts and policy changes do nothing; endings of another one neither. */
  lemma {:induction false} PendingRefuses(d: Durable, battery: string, request: Request, luck: Luck)
    requires battery in d.hardware && d.runtime.HasOperation()
    ensures request.RequestCancel? && !Pending(d.runtime, Calibration, battery) ==>
      Serve(d, battery, request, luck) == Session([], d)
    ensures request.RequestResume? && !Pending(d.runtime, Inhibit, battery) ==>
      Serve(d, battery, request, luck) == Session([], d)
    ensures !request.RequestCancel? && !request.RequestResume? ==> Serve(d, battery, request, luck) == Session([], d)
  {}

  /** A charge-once may last 24 hours and a calibration 48, and an inhibition any time. */
  lemma {:induction false} OperationsExpire(now: nat, battery: string, range: Range, later: nat)
    requires 0 < now && now + 48 * 3_600_000 <= U64_MAX
    ensures StartChargeOnce(now, battery, range).ChargeOnceExpired(later) <==> later >= now + 24 * 3_600_000
    ensures StartCalibration(now, battery, range).OperationExpired(later) <==> later >= now + 48 * 3_600_000
    ensures !StartInhibit(now, battery).OperationExpired(later)
  {}

  // ---------------------------------------------------------------- nothing left switched

  /** Only the battery of the recorded operation may have another behaviour than "auto". */
  ghost predicate Rested(d: Durable) {
    forall b :: b in d.hardware && d.hardware[b].behaviour != "auto" ==>
      d.runtime.operation != NoOperation && d.runtime.operationBattery == b
  }

  ghost predicate AllRested(s: Session) {
    forall x :: x in s.States() ==> Rested(x)
  }

  lemma {:induction false} RestedGrows(s: Session, next: Session)
    requires AllRested(s) && (next == s || (next.past == s.States() && Rested(next.now)))
    ensures AllRested(next)
  {}

  lemma {:induction false} SaveRested(s: Session, r: Runtime, o: SaveOutcome)
    requires AllRested(s) && (o.KeptOld? || Rested(s.now.(runtime := r)))
    ensures AllRested(Save(s, r, o))
  {
    assert s.now in s.States();
    RestedGrows(s, Save(s, r, o));
  }

  lemma {:induction false} FenceRested(s: Session, battery: string, o: LoadSave)
    requires AllRested(s)
    ensures AllRested(AddFence(s, battery, o)) && AllRested(Settle(s, battery, o))
    ensures AddFence(s, battery, o).now.hardware == s.now.hardware
    ensures AddFence(s, battery, o).now.runtime.(fenced := []) == s.now.runtime.(fenced := [])
  {
    assert s.now in s.States();
    if o.Stored? {
      SaveRested(s, s.now.runtime.Fence(battery), o.save);
      SaveRested(s, s.now.runtime.Unfence(battery), o.save);
    }
  }

  lemma {:induction false} RangeRested(s: Session, battery: string, w: RangeWrite, fence: LoadSave)
    requires AllRested(s) && battery in s.now.hardware
    ensures var next := SetRange(s, battery, w, fence);
      && AllRested(next) && next.now.runtime.(fenced := []) == s.now.runtime.(fenced := [])
      && next.now.hardware.Keys == s.now.hardware.Keys
      && forall b :: b in s.now.hardware ==> next.now.hardware[b].behaviour == s.now.hardware[b].behaviour
  {
    assert s.now in s.States();
    if !w.Denied? {
      var touched := Touch(s, battery, s.now.hardware[battery].(range := w.left));
      RestedGrows(s, touched);
      if w.Unknown? {
        FenceRested(touched, battery, fence);
      }
    }
  }

  /** A behaviour write is safe on the battery of the recorded operation. */
  lemma {:induction false} BehaviourRested(
    s: Session, battery: string, wanted: string, w: BehaviourWrite, fence: LoadSave)
    requires AllRested(s) && battery in s.now.hardware
    requires s.now.runtime.operation != NoOperation && s.now.runtime.operationBattery == battery
    ensures var next := SetBehaviour(s, battery, wanted, w, fence);
      && AllRested(next) && next.now.runtime.(fenced := []) == s.now.runtime.(fenced := [])
      && next.now.hardware.Keys == s.now.hardware.Keys
      && next.now.hardware[battery].behaviour == Left(s.now.hardware[battery].behaviour, wanted, w)
      && forall b :: b in s.now.hardware && b != battery ==> next.now.hardware[b] == s.now.hardware[b]
  {
    assert s.now in s.States();
    if !w.Refused? {
      var left := if w.Done? then wanted else w.behaviour;
      var touched := Touch(s, battery, s.now.hardware[battery].(behaviour := left));
      RestedGrows(s, touched);
      if w.Unclear? {
        FenceRested(touched, battery, fence);
      }
    }
  }

  lemma {:induction false} ChargeOnceRested(d: Durable, now: nat, battery: string, range: Range, luck: Luck)
    requires Rested(d) && battery in d.hardware
    ensures AllRested(ChargeOnce(d, now, battery, range, luck))
  {
    var s := Session([], d);
    if luck.loads && !d.runtime.HasOperation() {
      var r := StartChargeOnce(now, battery, range).(fenced := d.runtime.fenced);
      SaveRested(s, r, luck.begin);
      if luck.begin.Saved? {
        var begun := Save(s, r, luck.begin);
        RangeRested(begun, battery, luck.write, luck.writeFence);
        var written := SetRange(begun, battery, luck.write, luck.writeFence);
        if luck.write.Confirmed? {
          FenceRested(written, battery, luck.settle);
        } else if luck.write.Denied? {
          SaveRested(written, d.runtime, luck.undo);
        }
      }
    }
  }

  lemma {:induction false} CalibrationRested(d: Durable, now: nat, battery: string, range: Range, luck: Luck)
    requires Rested(d) && battery in d.hardware
    ensures AllRested(StartCalibrating(d, now, battery, range, luck))
  {
    var s := Session([], d);
    if luck.loads && !d.runtime.HasOperation() {
      var r := StartCalibration(now, battery, range).(fenced := d.runtime.fenced);
      SaveRested(s, r, luck.begin);
      if luck.begin.Saved? {
        var begun := Save(s, r, luck.begin);
        RangeRested(begun, battery, luck.write, luck.writeFence);
        var written := SetRange(begun, battery, luck.write, luck.writeFence);
        if luck.write.Denied? {
          SaveRested(written, d.runtime, luck.undo);
        } else if luck.write.Confirmed? {
          BehaviourRested(written, battery, "force-discharge", luck.behaviour, luck.behaviourFence);
          var forced := SetBehaviour(written, battery, "force-discharge", luck.behaviour, luck.behaviourFence);
          if luck.behaviour.Done? {
            FenceRested(forced, battery, luck.settle);
          } else if luck.behaviour.Refused? {
            RangeRested(forced, battery, luck.undoWrite, luck.undoFence);
            if !luck.undoWrite.Unknown? {
              SaveRested(SetRange(forced, battery, luck.undoWrite, luck.undoFence), d.runtime, luck.undo);
            }
          }
        }
      }
    }
  }

  lemma {:induction false} CancelRested(d: Durable, battery: string, luck: Luck)
    requires Rested(d) && battery in d.hardware
    ensures AllRested(CancelCalibration(d, battery, luck))
  {
    var s := Session([], d);
    if luck.loads && d.runtime.operation == Calibration && d.runtime.operationBattery == battery {
      var r := d.runtime.(phase := Restoring);
      SaveRested(s, r, luck.begin);
      if luck.begin.Saved? {
        var marked := Save(s, r, luck.begin);
        BehaviourRested(marked, battery, "auto", luck.behaviour, luck.behaviourFence);
        var calmed := SetBehaviour(marked, battery, "auto", luck.behaviour, luck.behaviourFence);
        if luck.behaviour.Done? && r.operationRestore.Some? {
          RangeRested(calmed, battery, luck.write, luck.writeFence);
          var restored := SetRange(calmed, battery, luck.write, luck.writeFence);
          if luck.write.Confirmed? && luck.write.left == r.operationRestore.value {
            SaveRested(restored, r.ClearOperation(), luck.finish);
            FenceRested(Save(restored, r.ClearOperation(), luck.finish), battery, luck.settle);
          }
        }
      }
    }
  }

  lemma {:induction false} InhibitRested(d: Durable, now: nat, battery: string, luck: Luck)
    requires Rested(d) && battery in d.hardware
    ensures AllRested(StartInhibiting(d, now, battery, luck))
  {
    var s := Session([], d);
    if luck.loads && !d.runtime.HasOperation() {
      var r := StartInhibit(now, battery).(fenced := d.runtime.fenced);
      SaveRested(s, r, luck.begin);
      if luck.begin.Saved? {
        var begun := Save(s, r, luck.begin);
        BehaviourRested(begun, battery, "inhibit-charge", luck.behaviour, luck.behaviourFence);
        var held := SetBehaviour(begun, battery, "inhibit-charge", luck.behaviour, luck.behaviourFence);
        if luck.behaviour.Done? {
          FenceRested(held, battery, luck.settle);
        } else if luck.behaviour.Refused? {
          SaveRested(held, d.runtime, luck.undo);
        }
      }
    }
  }

  lemma {:induction false} ResumeRested(d: Durable, battery: string, luck: Luck)
    requires Rested(d) && battery in d.hardware
    ensures AllRested(StopInhibiting(d, battery, luck))
  {
    var s := Session([], d);
    if luck.loads && d.runtime.operation == Inhibit && d.runtime.operationBattery == battery {
      BehaviourRested(s, battery, "auto", luck.behaviour, luck.behaviourFence);
      var freed := SetBehaviour(s, battery, "auto", luck.behaviour, luck.behaviourFence);
      if luck.behaviour.Done? {
        SaveRested(freed, d.runtime.ClearOperation(), luck.finish);
        FenceRested(Save(freed, d.runtime.ClearOperation(), luck.finish), battery, luck.settle);
      }
    }
  }

  lemma {:induction false} RequestRested(d: Durable, battery: string, request: Request, luck: Luck)
    requires Rested(d) && battery in d.hardware
    ensures AllRested(Serve(d, battery, request, luck))
  {
    match request
    case RequestChargeOnce(now, range) => ChargeOnceRested(d, now, battery, range, luck);
    case RequestCalibration(now, range) => CalibrationRested(d, now, battery, range, luck);
    case RequestCancel => CancelRested(d, battery, luck);
    case RequestInhibit(now) => InhibitRested(d, now, battery, luck);
    case RequestResume => ResumeRested(d, battery, luck);
    case RequestPolicy(configured) =>
      var s := Session([], d);
      RangeRested(s, battery, luck.write, luck.writeFence);
      FenceRested(SetRange(s, battery, luck.write, luck.writeFence), battery, luck.settle);
  }

  // ---------------------------------------------------------------- passes

  /** The pass's own record names the operation that the one on disk names, and may be saved over it. */
  ghost predicate Safe(p: Progress) {
    && AllRested(p.session)
    && (p.flag ==> Rested(p.session.now.(runtime := p.runtime)))
  }

  /** Once the battery of the operation is back at "auto", any record may follow. */
  lemma {:induction false} AutoIsRested(d: Durable, battery: string, r: Runtime)
    requires Rested(d) && d.runtime.operationBattery == battery && battery in d.hardware
    requires d.hardware[battery].behaviour == "auto"
    ensures Rested(d.(runtime := r))
  {}

  /** The two writes of a restoration. */
  lemma {:induction false} RestorationRested(s: Session, battery: string, luck: Luck)
    requires AllRested(s) && battery in s.now.hardware
    requires s.now.runtime.operation != NoOperation && s.now.runtime.operationBattery == battery
    ensures var calmed := SetBehaviour(s, battery, "auto", luck.behaviour, luck.behaviourFence);
      var restored := SetRange(calmed, battery, luck.write, luck.writeFence);
      && AllRested(calmed) && AllRested(restored)
      && forall r :: luck.behaviour.Done? ==> Rested(restored.now.(runtime := r))
  {
    BehaviourRested(s, battery, "auto", luck.behaviour, luck.behaviourFence);
    var calmed := SetBehaviour(s, battery, "auto", luck.behaviour, luck.behaviourFence);
    RangeRested(calmed, battery, luck.write, luck.writeFence);
    var restored := SetRange(calmed, battery, luck.write, luck.writeFence);
    assert restored.now in restored.States();
    forall r | luck.behaviour.Done? ensures Rested(restored.now.(runtime := r)) {
      AutoIsRested(restored.now, battery, r);
    }
  }

  lemma {:induction false} FinishRested(p: Progress, battery: string, luck: Luck)
    requires AllRested(p.session) && battery in p.session.now.hardware
    requires p.runtime.operation == p.session.now.runtime.operation == Calibration
    requires p.runtime.operationBattery == p.session.now.runtime.operationBattery == battery
    ensures Safe(FinishOperation(p, battery, luck))
  {
    var r := p.runtime.(phase := Restoring);
    assert p.session.now in p.session.States();
    var marked := p.session;
    if p.runtime.phase != Restoring {
      SaveRested(p.session, r, luck.begin);
      marked := Save(p.session, r, luck.begin);
    }
    if p.runtime.phase == Restoring || luck.begin.Saved? {
      RestorationRested(marked, battery, luck);
    }
  }

  lemma {:induction false} SteerRested(p: Progress, seen: Seen, wanted: string, pass: Pass)
    requires AllRested(p.session) && seen.id in p.session.now.hardware
    requires p.runtime.operation == p.session.now.runtime.operation != NoOperation
    requires p.runtime.operationBattery == p.session.now.runtime.operationBattery == seen.id
    ensures var next := Steer(p, seen, wanted, pass);
      AllRested(next.session) && Rested(next.session.now.(runtime := p.runtime)) && next.runtime == p.runtime
  {
    assert p.session.now in p.session.States();
    BehaviourRested(p.session, seen.id, wanted, pass.steer, pass.steerFence);
    var next := Steer(p, seen, wanted, pass).session;
    assert next.now in next.States();
  }

  lemma {:induction false} OperationRested(p: Progress, pass: Pass)
    requires AllRested(p.session) && Present(p.session.now, pass)
    requires p.runtime.operation != NoOperation ==>
      && p.runtime.operation == p.session.now.runtime.operation
      && p.runtime.operationBattery == p.session.now.runtime.operationBattery
    ensures Safe(ReconcileOperation(p, pass))
  {
    var found := Find(pass.devices, p.runtime.operationBattery);
    FindIsListed(pass.devices, p.runtime.operationBattery);
    if p.runtime.operation != NoOperation && found.Some? {
      var seen := found.value;
      if Restores(p.runtime, seen, pass) {
        FinishRested(p, seen.id, pass.restoration);
      } else if p.runtime.operation == Inhibit {
        SteerRested(p, seen, "inhibit-charge", pass);
      } else {
        SteerRested(p, seen, "auto", pass);
        SteerRested(p, seen, "force-discharge", pass);
      }
    }
  }

  lemma {:induction false} RangesRested(s: Session, r: Runtime, devices: seq<Seen>, due: bool, restored: bool)
    requires AllRested(s) && forall k :: 0 <= k < |devices| ==> devices[k].id in s.now.hardware
    ensures AllRested(ReconcileRanges(s, r, devices, due, restored).0)
    ensures ReconcileRanges(s, r, devices, due, restored).0.now.runtime.(fenced := []) == s.now.runtime.(fenced := [])
    decreases |devices|
  {
    if devices != [] {
      RangeRested(s, devices[0].id, devices[0].write, devices[0].fence);
      var (next, applied) := ApplyTarget(s, r, devices[0], due);
      RangesRested(next, r, devices[1..], due,
                   if r.chargeOnce && devices[0].id == r.chargeOnceBattery then applied else restored);
    }
  }

  lemma {:induction false} BeforeFinishRested(d: Durable, pass: Pass)
    requires Rested(d) && Exclusive(d.runtime) && Present(d, pass)
    ensures var p := BeforeFinish(d, pass);
      AllRested(p.session) && (p.flag ==> p.session.now.runtime.operation == NoOperation)
  {
    var adopted := Adopt(StartOf(d, pass), pass);
    SaveRested(Session([], d), Adopted(d.runtime, pass), pass.adopt);
    OperationKeepsDevices(adopted, pass);
    OperationRested(adopted, pass);
    var operated := ReconcileOperation(adopted, pass);
    var kept := operated.session;
    if operated.flag {
      SaveRested(operated.session, operated.runtime, pass.keep);
      kept := Save(operated.session, operated.runtime, pass.keep);
    }
    RangesRested(kept, operated.runtime, DevicesAfter(adopted, pass), Due(operated.runtime, pass), false);
    BeforeFinishLawful(d, pass);
  }

  lemma {:induction false} PassRested(d: Durable, pass: Pass)
    requires Rested(d) && Exclusive(d.runtime) && Present(d, pass)
    ensures AllRested(Reconcile(d, pass))
  {
    BeforeFinishRested(d, pass);
    var p := BeforeFinish(d, pass);
    if p.flag {
      assert p.session.now in p.session.States();
      SaveRested(p.session, Finished(p.runtime), pass.finish);
    }
  }

  // ---------------------------------------------------------------- runs

  ghost predicate RunIsRested(d: Durable, events: seq<Event>)
    requires PossibleRun(d, events)
    decreases |events|
  {
    && Rested(d)
    && (events != [] ==>
          && (forall x :: x in Reached(d, events[0]) ==> Rested(x))
          && RunIsRested(After(d, events[0]), events[1..]))
  }

  /**
   Over every run of requests, passes and crashes: a device is only ever left inhibited, discharging or in an
   unknown behaviour while the record on disk names the operation it is under.
   */
  lemma {:induction false} RunRested(d: Durable, events: seq<Event>)
    requires Rested(d) && Exclusive(d.runtime) && PossibleRun(d, events)
    ensures RunIsRested(d, events)
    decreases |events|
  {
    if events != [] {
      var e := events[0];
      match e {
        case Served(battery, request, luck, _) => RequestRested(d, battery, request, luck);
        case Passed(pass, _) => PassRested(d, pass);
      }
      EventNear(d, e);
      var states := SessionOf(d, e).States();
      assert forall x :: x in Reached(d, e) ==> x in states;
      RunRested(After(d, e), events[1..]);
    }
  }
}
