/** The no-replay fence: what keeps it, what drops it, and the pass that loses one. */
module BatteryFences {
  import opened Outcomes
  import opened BatteryRuntime
  import opened BatteryProtocol
  import opened BatteryMonitor
  import opened BatteryRuns

  ghost predicate Held(s: Session, battery: string) {
    forall x :: x in s.States() ==> battery in x.runtime.fenced
  }

  lemma {:induction false} SetRangeHeld(s: Session, battery: string, w: RangeWrite, fence: LoadSave, b: string)
    requires Held(s, b) && battery in s.now.hardware
    ensures Held(SetRange(s, battery, w, fence), b)
  {}

  lemma {:induction false} SetBehaviourHeld(
    s: Session, battery: string, wanted: string, w: BehaviourWrite, fence: LoadSave, b: string)
    requires Held(s, b) && battery in s.now.hardware
    ensures Held(SetBehaviour(s, battery, wanted, w, fence), b)
  {}

  lemma {:induction false} SaveHeld(s: Session, r: Runtime, o: SaveOutcome, b: string)
    requires Held(s, b) && b in r.fenced
    ensures Held(Save(s, r, o), b)
  {}

  lemma {:induction false} SettleHeld(s: Session, battery: string, o: LoadSave, b: string)
    requires Held(s, b) && b != battery
    ensures Held(Settle(s, battery, o), b)
  {
    assert s.now in s.States();
    if o.Stored? {
      WithoutRemoves(s.now.runtime.fenced, battery);
      SaveHeld(s, s.now.runtime.Unfence(battery), o.save, b);
    }
  }

  /** The last hardware write of the request was confirmed. */
  predicate Confirms(request: Request, luck: Luck) {
    match request
    case RequestChargeOnce(_, _) => luck.write.Confirmed?
    case RequestCalibration(_, _) => luck.write.Confirmed? && luck.behaviour.Done?
    case RequestCancel => luck.write.Confirmed? && luck.behaviour.Done?
    case RequestInhibit(_) => luck.behaviour.Done?
    case RequestResume => luck.behaviour.Done?
    case RequestPolicy(_) => luck.write.Confirmed?
  }

  lemma {:induction false} ChargeOnceHeld(d: Durable, battery: string, now: nat, range: Range, luck: Luck, b: string)
    requires b in d.runtime.fenced && battery in d.hardware && (b != battery || !luck.write.Confirmed?)
    ensures Held(ChargeOnce(d, now, battery, range, luck), b)
  {
    var s := Session([], d);
    var r := StartChargeOnce(now, battery, range).(fenced := d.runtime.fenced);
    SaveHeld(s, r, luck.begin, b);
    var begun := Save(s, r, luck.begin);
    SetRangeHeld(begun, battery, luck.write, luck.writeFence, b);
    var written := SetRange(begun, battery, luck.write, luck.writeFence);
    SaveHeld(written, d.runtime, luck.undo, b);
    if b != battery {
      SettleHeld(written, battery, luck.settle, b);
    }
  }

  lemma {:induction false} CalibrationHeld(d: Durable, battery: string, now: nat, range: Range, luck: Luck, b: string)
    requires b in d.runtime.fenced && battery in d.hardware
    requires b != battery || !(luck.write.Confirmed? && luck.behaviour.Done?)
    ensures Held(StartCalibrating(d, now, battery, range, luck), b)
  {
    var s := Session([], d);
    var r := StartCalibration(now, battery, range).(fenced := d.runtime.fenced);
    SaveHeld(s, r, luck.begin, b);
    var begun := Save(s, r, luck.begin);
    SetRangeHeld(begun, battery, luck.write, luck.writeFence, b);
    var written := SetRange(begun, battery, luck.write, luck.writeFence);
    SaveHeld(written, d.runtime, luck.undo, b);
    SetBehaviourHeld(written, battery, "force-discharge", luck.behaviour, luck.behaviourFence, b);
    var forced := SetBehaviour(written, battery, "force-discharge", luck.behaviour, luck.behaviourFence);
    if b != battery {
      SettleHeld(forced, battery, luck.settle, b);
    }
    SetRangeHeld(forced, battery, luck.undoWrite, luck.undoFence, b);
    SaveHeld(SetRange(forced, battery, luck.undoWrite, luck.undoFence), d.runtime, luck.undo, b);
  }

  lemma {:induction false} CancelHeld(d: Durable, battery: string, luck: Luck, b: string)
    requires b in d.runtime.fenced && battery in d.hardware
    requires b != battery || !(luck.write.Confirmed? && luck.behaviour.Done?)
    ensures Held(CancelCalibration(d, battery, luck), b)
  {
    var s := Session([], d);
    var r := d.runtime.(phase := Restoring);
    SaveHeld(s, r, luck.begin, b);
    var marked := Save(s, r, luck.begin);
    SetBehaviourHeld(marked, battery, "auto", luck.behaviour, luck.behaviourFence, b);
    var calmed := SetBehaviour(marked, battery, "auto", luck.behaviour, luck.behaviourFence);
    SetRangeHeld(calmed, battery, luck.write, luck.writeFence, b);
    var restored := SetRange(calmed, battery, luck.write, luck.writeFence);
    SaveHeld(restored, r.ClearOperation(), luck.finish, b);
    if b != battery {
      SettleHeld(Save(restored, r.ClearOperation(), luck.finish), battery, luck.settle, b);
    }
  }

  lemma {:induction false} InhibitHeld(d: Durable, battery: string, now: nat, luck: Luck, b: string)
    requires b in d.runtime.fenced && battery in d.hardware && (b != battery || !luck.behaviour.Done?)
    ensures Held(StartInhibiting(d, now, battery, luck), b) && Held(StopInhibiting(d, battery, luck), b)
  {
    var s := Session([], d);
    var r := StartInhibit(now, battery).(fenced := d.runtime.fenced);
    SaveHeld(s, r, luck.begin, b);
    var begun := Save(s, r, luck.begin);
    SetBehaviourHeld(begun, battery, "inhibit-charge", luck.behaviour, luck.behaviourFence, b);
    var held := SetBehaviour(begun, battery, "inhibit-charge", luck.behaviour, luck.behaviourFence);
    SaveHeld(held, d.runtime, luck.undo, b);
    SetBehaviourHeld(s, battery, "auto", luck.behaviour, luck.behaviourFence, b);
    var freed := SetBehaviour(s, battery, "auto", luck.behaviour, luck.behaviourFence);
    SaveHeld(freed, d.runtime.ClearOperation(), luck.finish, b);
    if b != battery {
      SettleHeld(held, battery, luck.settle, b);
      SettleHeld(Save(freed, d.runtime.ClearOperation(), luck.finish), battery, luck.settle, b);
    }
  }

  /** A fence outlives every request except a confirmed one for that very battery. */
  lemma {:induction false} RequestKeepsFence(d: Durable, battery: string, request: Request, luck: Luck, b: string)
    requires b in d.runtime.fenced && battery in d.hardware
    requires b != battery || !Confirms(request, luck)
    ensures Held(Serve(d, battery, request, luck), b)
  {
    match request
    case RequestChargeOnce(now, range) => ChargeOnceHeld(d, battery, now, range, luck, b);
    case RequestCalibration(now, range) => CalibrationHeld(d, battery, now, range, luck, b);
    case RequestCancel => CancelHeld(d, battery, luck, b);
    case RequestInhibit(now) => InhibitHeld(d, battery, now, luck, b);
    case RequestResume => InhibitHeld(d, battery, 0, luck, b);
    case RequestPolicy(configured) =>
      var s := Session([], d);
      SetRangeHeld(s, battery, luck.write, luck.writeFence, b);
      if b != battery {
        SettleHeld(SetRange(s, battery, luck.write, luck.writeFence), battery, luck.settle, b);
      }
  }

  // ---------------------------------------------------------------- the monitor: fences from before

  /** The restoration of the calibration of `b` is verified and its record saved: that drops the fence. */
  predicate RestoresFenced(d: Durable, pass: Pass, b: string) {
    && pass.loads && d.runtime.operation == Calibration && d.runtime.operationBattery == b
    && Find(pass.devices, b).Some? && !pass.keep.KeptOld?
    && (d.runtime.phase == Restoring || pass.restoration.begin.Saved?)
    && pass.restoration.behaviour.Done? && d.runtime.operationRestore.Some?
    && pass.restoration.write == Confirmed(d.runtime.operationRestore.value)
  }

  /** A charge-once is due, its battery was read, and the reading or a confirmed write put its range back. */
  predicate FinishesOnce(d: Durable, pass: Pass) {
    var r := Adopted(d.runtime, pass);
    var found := FindLast(pass.devices, r.chargeOnceBattery);
    pass.loads && !pass.finish.KeptOld? && Due(r, pass) && found.Some? && PutsBack(r, found.value)
  }

  /** That is when the pass saves the record without it. */
  lemma {:induction false} FinishesExactly(d: Durable, pass: Pass)
    requires Exclusive(d.runtime) && Present(d, pass)
    ensures BeforeFinish(d, pass).flag && !pass.finish.KeptOld? <==> FinishesOnce(d, pass)
  {
    BeforeFinishLawful(d, pass);
    var adopted := Adopt(StartOf(d, pass), pass);
    var r := Adopted(d.runtime, pass);
    if pass.loads && Due(r, pass) {
      assert adopted.runtime == r && ReconcileOperation(adopted, pass) == adopted.(flag := false);
      assert DevicesAfter(adopted, pass) == pass.devices;
      RestoredFlag(adopted.session, r, pass.devices, false);
    }
  }

  /** A fence from before the pass is lost with the operation of its own battery, and only then. */
  predicate Loses(d: Durable, pass: Pass, b: string) {
    || RestoresFenced(d, pass, b)
    || (FinishesOnce(d, pass) && b == Adopted(d.runtime, pass).chargeOnceBattery)
  }

  lemma {:induction false} FinishHeld(p: Progress, battery: string, luck: Luck, b: string)
    requires Held(p.session, b) && b in p.runtime.fenced && battery in p.session.now.hardware
    ensures Held(FinishOperation(p, battery, luck).session, b)
    ensures FinishOperation(p, battery, luck).runtime.fenced == p.runtime.fenced
  {
    var r := p.runtime.(phase := Restoring);
    var marked := p.session;
    if p.runtime.phase != Restoring {
      SaveHeld(p.session, r, luck.begin, b);
      marked := Save(p.session, r, luck.begin);
    }
    SetBehaviourHeld(marked, battery, "auto", luck.behaviour, luck.behaviourFence, b);
    var calmed := SetBehaviour(marked, battery, "auto", luck.behaviour, luck.behaviourFence);
    SetRangeHeld(calmed, battery, luck.write, luck.writeFence, b);
  }

  lemma {:induction false} SteerHeld(p: Progress, seen: Seen, wanted: string, pass: Pass, b: string)
    requires Held(p.session, b) && seen.id in p.session.now.hardware
    ensures Held(Steer(p, seen, wanted, pass).session, b)
  {
    SetBehaviourHeld(p.session, seen.id, wanted, pass.steer, pass.steerFence, b);
  }

  /** Reconciling the operation touches no fence on disk, and in the record only that of its own battery. */
  lemma {:induction false} OperationHeld(p: Progress, pass: Pass, b: string)
    requires Held(p.session, b) && b in p.runtime.fenced && Present(p.session.now, pass)
    ensures var next := ReconcileOperation(p, pass);
      && Held(next.session, b)
      && (b in next.runtime.fenced || (next.flag && b == p.runtime.operationBattery))
  {
    var found := Find(pass.devices, p.runtime.operationBattery);
    FindIsListed(pass.devices, p.runtime.operationBattery);
    if p.runtime.operation != NoOperation && found.Some? {
      var seen := found.value;
      FinishHeld(p, seen.id, pass.restoration, b);
      WithoutRemoves(p.runtime.fenced, seen.id);
      SteerHeld(p, seen, "inhibit-charge", pass, b);
      SteerHeld(p, seen, "auto", pass, b);
      SteerHeld(p, seen, "force-discharge", pass, b);
    }
  }

  /** For the fenced battery of an operation, the flag is the verified restoration. */
  lemma {:induction false} FencedOperation(p: Progress, pass: Pass, b: string)
    requires b in p.runtime.fenced && b == p.runtime.operationBattery && Present(p.session.now, pass)
    ensures var next := ReconcileOperation(p, pass);
      next.flag <==>
        && p.runtime.operation == Calibration && Find(pass.devices, b).Some?
        && (p.runtime.phase == Restoring || pass.restoration.begin.Saved?)
        && pass.restoration.behaviour.Done? && p.runtime.operationRestore.Some?
        && pass.restoration.write == Confirmed(p.runtime.operationRestore.value)
    ensures var next := ReconcileOperation(p, pass); next.flag ==> b !in next.runtime.fenced
  {
    FindIsListed(pass.devices, b);
    WithoutRemoves(p.runtime.fenced, b);
  }

  lemma {:induction false} RangesHeld(s: Session, r: Runtime, devices: seq<Seen>, due: bool, restored: bool, b: string)
    requires Held(s, b) && forall k :: 0 <= k < |devices| ==> devices[k].id in s.now.hardware
    ensures Held(ReconcileRanges(s, r, devices, due, restored).0, b)
    decreases |devices|
  {
    if devices != [] {
      SetRangeHeld(s, devices[0].id, devices[0].write, devices[0].fence, b);
      var (next, applied) := ApplyTarget(s, r, devices[0], due);
      RangesHeld(next, r, devices[1..], due,
                 if r.chargeOnce && devices[0].id == r.chargeOnceBattery then applied else restored, b);
    }
  }

  lemma {:induction false} AdoptHeld(d: Durable, pass: Pass, b: string)
    requires b in d.runtime.fenced
    ensures Held(Adopt(StartOf(d, pass), pass).session, b)
    ensures pass.loads ==> Adopt(StartOf(d, pass), pass).runtime == Adopted(d.runtime, pass)
    ensures !pass.loads ==> Adopt(StartOf(d, pass), pass).runtime == IDLE
    ensures Adopt(StartOf(d, pass), pass).session.now.hardware == d.hardware
  {
    SaveHeld(Session([], d), Adopted(d.runtime, pass), pass.adopt, b);
  }

  /** Later states are only ever added. */
  predicate Extended(s: Session, later: Session) {
    s.States() <= later.States()
  }

  lemma {:induction false} RangesExtend(s: Session, r: Runtime, devices: seq<Seen>, due: bool, restored: bool)
    requires forall k :: 0 <= k < |devices| ==> devices[k].id in s.now.hardware
    ensures Extended(s, ReconcileRanges(s, r, devices, due, restored).0)
    decreases |devices|
  {
    if devices != [] {
      var (next, applied) := ApplyTarget(s, r, devices[0], due);
      RangesExtend(next, r, devices[1..], due,
                   if r.chargeOnce && devices[0].id == r.chargeOnceBattery then applied else restored);
    }
  }

  /** The pass up to its last save keeps a fence from before exactly when it does not restore its calibration. */
  lemma {:induction false} BeforeFinishHeld(d: Durable, pass: Pass, b: string)
    requires Exclusive(d.runtime) && Present(d, pass) && b in d.runtime.fenced
    ensures Held(BeforeFinish(d, pass).session, b) <==> !RestoresFenced(d, pass, b)
  {
    var adopted := Adopt(StartOf(d, pass), pass);
    AdoptHeld(d, pass, b);
    OperationKeepsDevices(adopted, pass);
    var operated := ReconcileOperation(adopted, pass);
    var devices := DevicesAfter(adopted, pass);
    var due := Due(operated.runtime, pass);
    if !pass.loads {
      RangesHeld(adopted.session, operated.runtime, devices, due, false, b);
    } else {
      OperationHeld(adopted, pass, b);
      if b == adopted.runtime.operationBattery {
        FencedOperation(adopted, pass, b);
      }
      var kept := if operated.flag then Save(operated.session, operated.runtime, pass.keep) else operated.session;
      if operated.flag && b !in operated.runtime.fenced && !pass.keep.KeptOld? {
        RangesExtend(kept, operated.runtime, devices, due, false);
        var later := ReconcileRanges(kept, operated.runtime, devices, due, false).0;
        assert kept.now in kept.States() && kept.States()[|kept.past|] == kept.now;
        assert later.States()[|kept.past|] == kept.now;
        assert !Held(later, b);
      } else {
        assert Held(kept, b);
        RangesHeld(kept, operated.runtime, devices, due, false, b);
      }
    }
  }

  /**
   A fence from before a pass stays in every durable state of it, unless the pass verifiably ends the
   operation of that very battery; and then it does not.
   */
  lemma {:induction false} PassKeepsFence(d: Durable, pass: Pass, b: string)
    requires Exclusive(d.runtime) && Present(d, pass) && b in d.runtime.fenced
    ensures Held(Reconcile(d, pass), b) <==> !Loses(d, pass, b)
  {
    BeforeFinishHeld(d, pass, b);
    BeforeFinishLawful(d, pass);
    FinishesExactly(d, pass);
    var p := BeforeFinish(d, pass);
    if p.flag {
      WithoutRemoves(p.runtime.fenced, p.runtime.chargeOnceBattery);
      var s := Reconcile(d, pass);
      assert s.now in s.States();
      assert forall x :: x in p.session.States() ==> x in s.States();
    }
  }

  // ---------------------------------------------------------------- the monitor: fences made by a pass

  /** Once there, the fence stays. */
  ghost predicate Grows(s: Session, b: string) {
    forall i, j :: 0 <= i <= j < |s.States()| && b in s.States()[i].runtime.fenced ==>
      b in s.States()[j].runtime.fenced
  }

  ghost predicate Absent(s: Session, b: string) {
    forall x :: x in s.States() ==> b !in x.runtime.fenced
  }

  lemma {:induction false} GrowsByOne(s: Session, next: Session, b: string)
    requires Grows(s, b) && next.past == s.States()
    requires b in s.now.runtime.fenced ==> b in next.now.runtime.fenced
    ensures Grows(next, b)
  {
    var before, after := s.States(), next.States();
    assert after == before + [next.now] && before[|s.past|] == s.now;
    forall i, j | 0 <= i <= j < |after| && b in after[i].runtime.fenced
      ensures b in after[j].runtime.fenced
    {
      if i < |before| {
        assert before[i] == after[i];
        if j == |before| {
          assert b in before[|s.past|].runtime.fenced;
        } else {
          assert before[j] == after[j];
        }
      }
    }
  }

  lemma {:induction false} AbsentGrows(s: Session, b: string)
    requires Absent(s, b)
    ensures Grows(s, b)
  {
    forall i | 0 <= i < |s.States()| ensures b !in s.States()[i].runtime.fenced {
      assert s.States()[i] in s.States();
    }
  }

  lemma {:induction false} SetRangeGrows(s: Session, battery: string, w: RangeWrite, fence: LoadSave, b: string)
    requires Grows(s, b) && battery in s.now.hardware
    ensures Grows(SetRange(s, battery, w, fence), b)
  {
    if !w.Denied? {
      var touched := Touch(s, battery, s.now.hardware[battery].(range := w.left));
      GrowsByOne(s, touched, b);
      if w.Unknown? && fence.Stored? {
        GrowsByOne(touched, AddFence(touched, battery, fence), b);
      }
    }
  }

  lemma {:induction false} SetBehaviourGrows(
    s: Session, battery: string, wanted: string, w: BehaviourWrite, fence: LoadSave, b: string)
    requires Grows(s, b) && battery in s.now.hardware
    ensures Grows(SetBehaviour(s, battery, wanted, w, fence), b)
  {
    if !w.Refused? {
      var left := if w.Done? then wanted else w.behaviour;
      var touched := Touch(s, battery, s.now.hardware[battery].(behaviour := left));
      GrowsByOne(s, touched, b);
      if w.Unclear? && fence.Stored? {
        GrowsByOne(touched, AddFence(touched, battery, fence), b);
      }
    }
  }

  /** A step that will save the pass's record has added no fence on disk. */
  ghost predicate Quiet(p: Progress, b: string) {
    Grows(p.session, b) && b !in p.runtime.fenced && (p.flag ==> b !in p.session.now.runtime.fenced)
  }

  lemma {:induction false} FinishQuiet(p: Progress, battery: string, luck: Luck, b: string)
    requires Absent(p.session, b) && b !in p.runtime.fenced && battery in p.session.now.hardware
    ensures Quiet(FinishOperation(p, battery, luck), b)
  {
    assert p.session.now in p.session.States();
    var r := p.runtime.(phase := Restoring);
    AbsentGrows(p.session, b);
    var marked := p.session;
    if p.runtime.phase != Restoring {
      marked := Save(p.session, r, luck.begin);
      GrowsByOne(p.session, marked, b);
    }
    SetBehaviourGrows(marked, battery, "auto", luck.behaviour, luck.behaviourFence, b);
    var calmed := SetBehaviour(marked, battery, "auto", luck.behaviour, luck.behaviourFence);
    SetRangeGrows(calmed, battery, luck.write, luck.writeFence, b);
  }

  lemma {:induction false} SteerQuiet(p: Progress, seen: Seen, wanted: string, pass: Pass, b: string)
    requires Absent(p.session, b) && b !in p.runtime.fenced && seen.id in p.session.now.hardware
    ensures Quiet(Steer(p, seen, wanted, pass), b)
  {
    assert p.session.now in p.session.States();
    AbsentGrows(p.session, b);
    SetBehaviourGrows(p.session, seen.id, wanted, pass.steer, pass.steerFence, b);
  }

  lemma {:induction false} ContinueQuiet(p: Progress, seen: Seen, pass: Pass, b: string)
    requires Absent(p.session, b) && b !in p.runtime.fenced && seen.id in p.session.now.hardware
    ensures Quiet(ContinueCalibration(p, seen, pass), b)
  {
    SteerQuiet(p, seen, "auto", pass, b);
    SteerQuiet(p, seen, "force-discharge", pass, b);
  }

  lemma {:induction false} RestoreQuiet(p: Progress, battery: string, luck: Luck, b: string)
    requires Absent(p.session, b) && b !in p.runtime.fenced && battery in p.session.now.hardware
    ensures var done := FinishOperation(p, battery, luck);
      Quiet(done, b) && Quiet(done.(runtime := done.runtime.Unfence(battery)), b)
  {
    FinishQuiet(p, battery, luck, b);
    WithoutRemoves(FinishOperation(p, battery, luck).runtime.fenced, battery);
  }

  lemma {:induction false} OperationQuiet(p: Progress, pass: Pass, b: string)
    requires Absent(p.session, b) && b !in p.runtime.fenced && Present(p.session.now, pass)
    ensures Quiet(ReconcileOperation(p, pass), b)
  {
    AbsentGrows(p.session, b);
    var found := Find(pass.devices, p.runtime.operationBattery);
    FindIsListed(pass.devices, p.runtime.operationBattery);
    if p.runtime.operation != NoOperation && found.Some? {
      var seen := found.value;
      if Restores(p.runtime, seen, pass) {
        RestoreQuiet(p, seen.id, pass.restoration, b);
      } else if p.runtime.operation == Inhibit {
        SteerQuiet(p, seen, "inhibit-charge", pass, b);
      } else {
        ContinueQuiet(p, seen, pass, b);
      }
    }
  }

  lemma {:induction false} RangesGrow(s: Session, r: Runtime, devices: seq<Seen>, due: bool, restored: bool, b: string)
    requires Grows(s, b) && forall k :: 0 <= k < |devices| ==> devices[k].id in s.now.hardware
    ensures Grows(ReconcileRanges(s, r, devices, due, restored).0, b)
    decreases |devices|
  {
    if devices != [] {
      SetRangeGrows(s, devices[0].id, devices[0].write, devices[0].fence, b);
      var (next, applied) := ApplyTarget(s, r, devices[0], due);
      RangesGrow(next, r, devices[1..], due,
                 if r.chargeOnce && devices[0].id == r.chargeOnceBattery then applied else restored, b);
    }
  }

  lemma {:induction false} BeforeFinishGrows(d: Durable, pass: Pass, b: string)
    requires Present(d, pass) && b !in d.runtime.fenced
    ensures Grows(BeforeFinish(d, pass).session, b) && b !in BeforeFinish(d, pass).runtime.fenced
  {
    var adopted := Adopt(StartOf(d, pass), pass);
    assert Absent(adopted.session, b);
    OperationKeepsDevices(adopted, pass);
    OperationQuiet(adopted, pass, b);
    var operated := ReconcileOperation(adopted, pass);
    var kept := operated.session;
    if operated.flag {
      kept := Save(operated.session, operated.runtime, pass.keep);
      GrowsByOne(operated.session, kept, b);
    }
    RangesGrow(kept, operated.runtime, DevicesAfter(adopted, pass), Due(operated.runtime, pass), false, b);
  }

  /**
   A fence made during a pass stays in every later durable state of it, except that the save which
   finishes a charge-once overwrites it.
   */
  lemma {:induction false} PassKeepsNewFence(d: Durable, pass: Pass, b: string, i: nat, j: nat)
    requires Exclusive(d.runtime) && Present(d, pass) && b !in d.runtime.fenced
    requires i <= j < |Reconcile(d, pass).States()| && b in Reconcile(d, pass).States()[i].runtime.fenced
    ensures b in Reconcile(d, pass).States()[j].runtime.fenced
            <==> !(FinishesOnce(d, pass) && j == |Reconcile(d, pass).past|)
  {
    BeforeFinishGrows(d, pass, b);
    FinishesExactly(d, pass);
    var p := BeforeFinish(d, pass);
    var s := Reconcile(d, pass);
    if p.flag {
      WithoutRemoves(p.runtime.fenced, p.runtime.chargeOnceBattery);
      assert s.States() == p.session.States() + [s.now];
      assert p.session.States()[|p.session.past|] == p.session.now;
    }
  }

  /** After a pass that finishes a charge-once, the fences are those from before it, less the battery's own. */
  lemma {:induction false} FinishedPassFences(d: Durable, pass: Pass, b: string)
    requires Exclusive(d.runtime) && Present(d, pass) && FinishesOnce(d, pass)
    ensures b in Reconcile(d, pass).now.runtime.fenced
            <==> b in d.runtime.fenced && b != Adopted(d.runtime, pass).chargeOnceBattery
  {
    BeforeFinishLawful(d, pass);
    FinishesExactly(d, pass);
    WithoutRemoves(d.runtime.fenced, Adopted(d.runtime, pass).chargeOnceBattery);
  }

  // ---------------------------------------------------------------- whole runs

  ghost function Final(d: Durable, events: seq<Event>): Durable
    requires PossibleRun(d, events)
    decreases |events|
  {
    if events == [] then d else Final(After(d, events[0]), events[1..])
  }

  /** No request for `b` is confirmed, and no pass verifiably ends the operation of `b`. */
  ghost predicate Spares(d: Durable, events: seq<Event>, b: string)
    requires PossibleRun(d, events)
    decreases |events|
  {
    events != [] ==>
      && (match events[0]
          case Served(battery, request, luck, _) => battery != b || !Confirms(request, luck)
          case Passed(pass, _) => !Loses(d, pass, b))
      && Spares(After(d, events[0]), events[1..], b)
  }

  /** Over every run of requests, passes and crashes, a fence stays until one of these events. */
  lemma {:induction false} RunKeepsFence(d: Durable, events: seq<Event>, b: string)
    requires Exclusive(d.runtime) && b in d.runtime.fenced && PossibleRun(d, events) && Spares(d, events, b)
    ensures b in Final(d, events).runtime.fenced
    decreases |events|
  {
    if events != [] {
      var e := events[0];
      match e {
        case Served(battery, request, luck, _) => RequestKeepsFence(d, battery, request, luck, b);
        case Passed(pass, _) => PassKeepsFence(d, pass, b);
      }
      EventNear(d, e);
      assert After(d, e) in SessionOf(d, e).States();
      RunKeepsFence(After(d, e), events[1..], b);
    }
  }

  predicate Stores(fence: LoadSave) {
    fence.Stored? && !fence.save.KeptOld?
  }

  /** The request's last write has an unknown outcome, and its fence reaches the disk. */
  predicate EndsUnknown(d: Durable, battery: string, request: Request, luck: Luck) {
    var idle := luck.loads && !d.runtime.HasOperation();
    var range := luck.write.Unknown? && Stores(luck.writeFence);
    var behaviour := luck.behaviour.Unclear? && Stores(luck.behaviourFence);
    match request
    case RequestChargeOnce(_, _) => idle && luck.begin.Saved? && range
    case RequestCalibration(_, _) =>
      && idle && luck.begin.Saved?
      && (range || (luck.write.Confirmed?
                    && (behaviour || (luck.behaviour.Refused? && luck.undoWrite.Unknown? && Stores(luck.undoFence)))))
    case RequestCancel =>
      && luck.loads && d.runtime.operation == Calibration && d.runtime.operationBattery == battery
      && luck.begin.Saved?
      && (behaviour || (luck.behaviour.Done? && d.runtime.operationRestore.Some? && range))
    case RequestInhibit(_) => idle && luck.begin.Saved? && behaviour
    case RequestResume =>
      luck.loads && d.runtime.operation == Inhibit && d.runtime.operationBattery == battery && behaviour
    case RequestPolicy(configured) => idle && configured && range
  }

  /** Whatever the request, an unknown outcome leaves the battery fenced. */
  lemma {:induction false} UnknownWriteFences(d: Durable, battery: string, request: Request, luck: Luck)
    requires battery in d.hardware && EndsUnknown(d, battery, request, luck)
    ensures battery in Serve(d, battery, request, luck).now.runtime.fenced
  {}

  /** ... and it stays fenced over every later run that spares it. */
  lemma {:induction false} UnknownStaysFenced(
    d: Durable, battery: string, request: Request, luck: Luck, events: seq<Event>)
    requires Exclusive(d.runtime) && battery in d.hardware && EndsUnknown(d, battery, request, luck)
    requires PossibleRun(Serve(d, battery, request, luck).now, events)
    requires Spares(Serve(d, battery, request, luck).now, events, battery)
    ensures battery in Final(Serve(d, battery, request, luck).now, events).runtime.fenced
  {
    UnknownWriteFences(d, battery, request, luck);
    var s := Serve(d, battery, request, luck);
    EventNear(d, Served(battery, request, luck, |s.past|));
    assert s.States()[..|s.past| + 1] == s.States();
    RunKeepsFence(s.now, events, battery);
  }

  /** A fence made by a pass stays too, over every later run that spares it, unless the pass got as far
      as finishing a charge-once. */
  lemma {:induction false} PassFenceStays(
    d: Durable, pass: Pass, cut: nat, b: string, i: nat, events: seq<Event>)
    requires Exclusive(d.runtime) && Present(d, pass) && b !in d.runtime.fenced
    requires i < |Reconcile(d, pass).States()| && b in Reconcile(d, pass).States()[i].runtime.fenced && i <= cut
    requires !(FinishesOnce(d, pass) && cut >= |Reconcile(d, pass).past|)
    requires PossibleRun(After(d, Passed(pass, cut)), events) && Spares(After(d, Passed(pass, cut)), events, b)
    ensures b in Final(After(d, Passed(pass, cut)), events).runtime.fenced
  {
    var e := Passed(pass, cut);
    EventNear(d, e);
    var s := Reconcile(d, pass);
    PassKeepsNewFence(d, pass, b, i, if cut < |s.States()| then cut else |s.past|);
    RunKeepsFence(After(d, e), events, b);
  }

  // ---------------------------------------------------------------- a fence that is lost

  /** Two batteries: BAT0's charge-once is due and already restored, BAT1's policy write is unknown. */
  function TwoBatteries(): Durable {
    Durable(StartChargeOnce(0, "BAT0", Range(75, 80)),
            map["BAT0" := Device(Range(75, 80), "auto"), "BAT1" := Device(Range(0, 100), "auto")])
  }

  function UnluckyPass(luck: Luck): Pass {
    Pass(true, false, 1, "BAT0",
         [Seen("BAT1", 50, Some(Range(0, 100)), Some(100), "auto", true, Some(Range(60, 80)), None,
               Unknown(Range(60, 80)), Stored(Saved)),
          Seen("BAT0", 50, Some(Range(75, 80)), Some(80), "auto", true, None, None, Denied, Unread)],
         Saved, Refused, Unread, luck, Saved, Saved)
  }

  /** BAT1's fence reaches the disk during the pass and is overwritten before the pass ends. */
  lemma {:induction false} PassLosesNewFence(luck: Luck)
    ensures Present(TwoBatteries(), UnluckyPass(luck))
    ensures "BAT1" in BeforeFinish(TwoBatteries(), UnluckyPass(luck)).session.now.runtime.fenced
    ensures "BAT1" !in Reconcile(TwoBatteries(), UnluckyPass(luck)).now.runtime.fenced
  {
    var d := TwoBatteries();
    var pass := UnluckyPass(luck);
    var r := d.runtime;
    var s := Session([], d);
    var first, second := pass.devices[0], pass.devices[1];
    assert pass.devices[1..] == [second] && [second][1..] == [];
    assert Find(pass.devices, "BAT0") == Find([second], "BAT0") == Some(second);
    assert Due(r, pass);
    var (next, applied) := ApplyTarget(s, r, first, true);
    assert next.now.runtime.fenced == ["BAT1"] && !applied;
    assert ApplyTarget(next, r, second, true) == (next, true);
    assert ReconcileRanges(next, r, [], true, true) == (next, true);
    assert ReconcileRanges(next, r, [second], true, false) == (next, true);
    assert ReconcileRanges(s, r, pass.devices, true, false) == (next, true);
  }
}
