/**
 Battery requests as sequences of durable effects. A session keeps every durable state
 passed through, so a crash leaves one of its states. A failed save may have replaced
 the file; a hardware write is confirmed, denied before anything is written, or of
 unknown outcome.
 */
module BatteryProtocol {
  import opened Outcomes
  import opened BatteryRuntime

  datatype Device = Device(range: Range, behaviour: string)

  datatype Durable = Durable(runtime: Runtime, hardware: map<string, Device>)

  datatype SaveOutcome = Saved | KeptOld | ReplacedAnyway

  /** A record is read back and saved, or cannot be read. */
  datatype LoadSave = Unread | Stored(save: SaveOutcome)

  /** The range left on the device; a denied write left it alone. */
  datatype RangeWrite = Confirmed(left: Range) | Denied | Unknown(left: Range)

  /** The behaviour left on the device; a confirmed write left the requested one. */
  datatype BehaviourWrite = Done | Refused | Unclear(behaviour: string)

  /** How every call of one request turns out. */
  datatype Luck = Luck(
    loads: bool,
    begin: SaveOutcome,
    write: RangeWrite,
    writeFence: LoadSave,
    behaviour: BehaviourWrite,
    behaviourFence: LoadSave,
    undoWrite: RangeWrite,
    undoFence: LoadSave,
    undo: SaveOutcome,
    finish: SaveOutcome,
    settle: LoadSave)

  datatype Session = Session(past: seq<Durable>, now: Durable)
  {
    function States(): seq<Durable> {
      past + [now]
    }
  }

  function Save(s: Session, r: Runtime, o: SaveOutcome): Session {
    Session(s.past + [s.now], if o.KeptOld? then s.now else s.now.(runtime := r))
  }

  function Touch(s: Session, battery: string, device: Device): Session {
    Session(s.past + [s.now], s.now.(hardware := s.now.hardware[battery := device]))
  }

  /** Adds the no-replay fence to the record on disk. */
  function AddFence(s: Session, battery: string, o: LoadSave): Session {
    match o
    case Unread => s
    case Stored(save) => Save(s, s.now.runtime.Fence(battery), save)
  }

  /** After a confirmed request the battery's fence is dropped from the record on disk. */
  function Settle(s: Session, battery: string, o: LoadSave): Session {
    match o
    case Unread => s
    case Stored(save) => Save(s, s.now.runtime.Unfence(battery), save)
  }

  function SetRange(s: Session, battery: string, w: RangeWrite, fence: LoadSave): Session
    requires battery in s.now.hardware
  {
    match w
    case Denied => s
    case Confirmed(left) => Touch(s, battery, s.now.hardware[battery].(range := left))
    case Unknown(left) => AddFence(Touch(s, battery, s.now.hardware[battery].(range := left)), battery, fence)
  }

  function SetBehaviour(s: Session, battery: string, wanted: string, w: BehaviourWrite, fence: LoadSave): Session
    requires battery in s.now.hardware
  {
    match w
    case Refused => s
    case Done => Touch(s, battery, s.now.hardware[battery].(behaviour := wanted))
    case Unclear(b) => AddFence(Touch(s, battery, s.now.hardware[battery].(behaviour := b)), battery, fence)
  }

  // ---------------------------------------------------------------- requests

  function ChargeOnce(d: Durable, now: nat, battery: string, range: Range, luck: Luck): Session
    requires battery in d.hardware
  {
    var s := Session([], d);
    if !luck.loads || d.runtime.HasOperation() then s
    else
      var begun := Save(s, StartChargeOnce(now, battery, range).(fenced := d.runtime.fenced), luck.begin);
      if !luck.begin.Saved? then begun
      else
        var written := SetRange(begun, battery, luck.write, luck.writeFence);
        match luck.write
        case Confirmed(_) => Settle(written, battery, luck.settle)
        case Denied => Save(written, d.runtime, luck.undo)
        case Unknown(_) => written
  }

  function StartCalibrating(d: Durable, now: nat, battery: string, range: Range, luck: Luck): Session
    requires battery in d.hardware
  {
    var s := Session([], d);
    if !luck.loads || d.runtime.HasOperation() then s
    else
      var begun := Save(s, StartCalibration(now, battery, range).(fenced := d.runtime.fenced), luck.begin);
      if !luck.begin.Saved? then begun
      else
        var written := SetRange(begun, battery, luck.write, luck.writeFence);
        match luck.write
        case Denied => Save(written, d.runtime, luck.undo)
        case Unknown(_) => written
        case Confirmed(_) =>
          var forced := SetBehaviour(written, battery, "force-discharge", luck.behaviour, luck.behaviourFence);
          match luck.behaviour
          case Done => Settle(forced, battery, luck.settle)
          case Unclear(_) => forced
          case Refused => RollbackCalibration(forced, battery, d.runtime, luck)
  }

  /** After a definite refusal: put the range back, then the record, whatever the range write did. */
  function RollbackCalibration(s: Session, battery: string, previous: Runtime, luck: Luck): Session
    requires battery in s.now.hardware
  {
    var back := SetRange(s, battery, luck.undoWrite, luck.undoFence);
    if luck.undoWrite.Unknown? then back else Save(back, previous, luck.undo)
  }

  function CancelCalibration(d: Durable, battery: string, luck: Luck): Session
    requires battery in d.hardware
  {
    var s := Session([], d);
    if !luck.loads || d.runtime.operation != Calibration || d.runtime.operationBattery != battery then s
    else
      var runtime := d.runtime.(phase := Restoring);
      var marked := Save(s, runtime, luck.begin);
      if !luck.begin.Saved? then marked
      else
        var calmed := SetBehaviour(marked, battery, "auto", luck.behaviour, luck.behaviourFence);
        if !luck.behaviour.Done? || runtime.operationRestore.None? then calmed
        else
          var wanted := runtime.operationRestore.value;
          var restored := SetRange(calmed, battery, luck.write, luck.writeFence);
          match luck.write
          case Denied => restored
          case Unknown(_) => restored
          case Confirmed(left) =>
            match runtime.CompleteRestoration(left, left == wanted)
            case None => restored
            case Some(cleared) =>
              var saved := Save(restored, cleared, luck.finish);
              if luck.finish.Saved? then Settle(saved, battery, luck.settle) else saved
  }

  function StartInhibiting(d: Durable, now: nat, battery: string, luck: Luck): Session
    requires battery in d.hardware
  {
    var s := Session([], d);
    if !luck.loads || d.runtime.HasOperation() then s
    else
      var begun := Save(s, StartInhibit(now, battery).(fenced := d.runtime.fenced), luck.begin);
      if !luck.begin.Saved? then begun
      else
        var held := SetBehaviour(begun, battery, "inhibit-charge", luck.behaviour, luck.behaviourFence);
        match luck.behaviour
        case Done => Settle(held, battery, luck.settle)
        case Refused => Save(held, d.runtime, luck.undo)
        case Unclear(_) => held
  }

  function StopInhibiting(d: Durable, battery: string, luck: Luck): Session
    requires battery in d.hardware
  {
    var s := Session([], d);
    if !luck.loads || d.runtime.operation != Inhibit || d.runtime.operationBattery != battery then s
    else
      var freed := SetBehaviour(s, battery, "auto", luck.behaviour, luck.behaviourFence);
      if !luck.behaviour.Done? then freed
      else
        var saved := Save(freed, d.runtime.ClearOperation(), luck.finish);
        if luck.finish.Saved? then Settle(saved, battery, luck.settle) else saved
  }

  /** A policy change with protection on; its configuration saves are not part of the record. */
  function ApplyPolicy(d: Durable, battery: string, configured: bool, luck: Luck): Session
    requires battery in d.hardware
  {
    var s := Session([], d);
    if !luck.loads || d.runtime.HasOperation() || !configured then s
    else
      var written := SetRange(s, battery, luck.write, luck.writeFence);
      if luck.write.Confirmed? && luck.finish.Saved? then Settle(written, battery, luck.settle) else written
  }

  // ---------------------------------------------------------------- start safety
  //
  // A start records the range that was last read, which need not be the one on the device.

  /** The device still has its own range, or the record on disk names the battery with the range read. */
  predicate Covered(d: Durable, battery: string, own: Range, read: Range) {
    battery in d.hardware && (d.hardware[battery].range == own || Names(d.runtime, battery, read))
  }

  ghost predicate AllCovered(s: Session, battery: string, own: Range, read: Range) {
    forall d :: d in s.States() ==> Covered(d, battery, own, read)
  }

  /** The record on disk can put the device's own range back, if that is needed at all. */
  predicate Recoverable(d: Durable, battery: string, own: Range) {
    Covered(d, battery, own, own)
  }

  ghost predicate AllRecoverable(s: Session, battery: string, own: Range) {
    AllCovered(s, battery, own, own)
  }

  /** A later state differs from the earlier ones only by being appended. */
  lemma {:induction false} StatesGrow(s: Session, next: Session, battery: string, own: Range, read: Range)
    requires AllCovered(s, battery, own, read)
    requires next == s || (next.past == s.States() && Covered(next.now, battery, own, read))
    ensures AllCovered(next, battery, own, read)
  {}

  lemma {:induction false} SetRangeCovered(
    s: Session, battery: string, w: RangeWrite, fence: LoadSave, own: Range, read: Range)
    requires AllCovered(s, battery, own, read)
    requires battery in s.now.hardware && Names(s.now.runtime, battery, read)
    ensures AllCovered(SetRange(s, battery, w, fence), battery, own, read)
    ensures var after := SetRange(s, battery, w, fence).now;
      battery in after.hardware && Names(after.runtime, battery, read)
  {}

  lemma {:induction false} SetBehaviourCovered(
    s: Session, battery: string, wanted: string, w: BehaviourWrite, fence: LoadSave, own: Range, read: Range)
    requires AllCovered(s, battery, own, read)
    requires battery in s.now.hardware && Names(s.now.runtime, battery, read)
    ensures AllCovered(SetBehaviour(s, battery, wanted, w, fence), battery, own, read)
    ensures var after := SetBehaviour(s, battery, wanted, w, fence).now;
      && battery in after.hardware && Names(after.runtime, battery, read)
      && after.hardware[battery].range == s.now.hardware[battery].range
  {}

  /** A start gets as far as its first write. */
  predicate Starts(d: Durable, luck: Luck) {
    luck.loads && !d.runtime.HasOperation() && luck.begin.Saved?
  }

  /** The write left the device with another range than its own. */
  predicate Moves(w: RangeWrite, own: Range) {
    !w.Denied? && w.left != own
  }

  /** At every crash point of charge-once, the range is unchanged or the record names the battery. */
  lemma {:induction false} ChargeOnceCovered(d: Durable, now: nat, battery: string, read: Range, luck: Luck)
    requires battery in d.hardware
    ensures AllCovered(ChargeOnce(d, now, battery, read, luck), battery, d.hardware[battery].range, read)
  {
    var s, own := Session([], d), d.hardware[battery].range;
    if luck.loads && !d.runtime.HasOperation() {
      var begun := Save(s, StartChargeOnce(now, battery, read).(fenced := d.runtime.fenced), luck.begin);
      StatesGrow(s, begun, battery, own, read);
      if luck.begin.Saved? {
        SetRangeCovered(begun, battery, luck.write, luck.writeFence, own, read);
        var written := SetRange(begun, battery, luck.write, luck.writeFence);
        StatesGrow(written, ChargeOnce(d, now, battery, read, luck), battery, own, read);
      }
    }
  }

  /** The device's own range is recoverable throughout exactly when it was the range read, or never left. */
  lemma {:induction false} ChargeOnceRecoverable(d: Durable, now: nat, battery: string, read: Range, luck: Luck)
    requires battery in d.hardware
    ensures var own := d.hardware[battery].range;
      AllRecoverable(ChargeOnce(d, now, battery, read, luck), battery, own)
      <==> read == own || !(Starts(d, luck) && Moves(luck.write, own))
  {
    ChargeOnceCovered(d, now, battery, read, luck);
    var own := d.hardware[battery].range;
    var end := ChargeOnce(d, now, battery, read, luck);
    assert end.now in end.States();
    if Starts(d, luck) && Moves(luck.write, own) && read != own {
      assert !Recoverable(end.now, battery, own);
    } else if read != own {
      StaysPut(d, now, battery, read, luck);
    }
  }

  lemma {:induction false} StaysPut(d: Durable, now: nat, battery: string, read: Range, luck: Luck)
    requires battery in d.hardware && !(Starts(d, luck) && Moves(luck.write, d.hardware[battery].range))
    ensures AllRecoverable(ChargeOnce(d, now, battery, read, luck), battery, d.hardware[battery].range)
  {}

  /** The one way a calibration start gives restoration up: the behaviour is refused, the range is not
      back, and the earlier record replaces the one naming the battery. */
  predicate GivesUp(d: Durable, own: Range, luck: Luck) {
    && Starts(d, luck) && luck.write.Confirmed? && luck.behaviour.Refused? && !luck.undo.KeptOld?
    && match luck.undoWrite
       case Denied => luck.write.left != own
       case Confirmed(left) => left != own
       case Unknown(_) => false
  }

  /** Some write of a calibration start leaves the device with another range than its own. */
  predicate CalibrationMoves(d: Durable, own: Range, luck: Luck) {
    && Starts(d, luck)
    && (|| Moves(luck.write, own)
        || (luck.write.Confirmed? && luck.behaviour.Refused? && Moves(luck.undoWrite, own)))
  }

  /** Before its last state a calibration start is covered, and in it unless it gives up. */
  lemma {:induction false} CalibrationCovered(d: Durable, now: nat, battery: string, read: Range, luck: Luck)
    requires battery in d.hardware
    ensures var s, own := StartCalibrating(d, now, battery, read, luck), d.hardware[battery].range;
      && (forall x :: x in s.past ==> Covered(x, battery, own, read))
      && (Covered(s.now, battery, own, read) <==> !GivesUp(d, own, luck))
  {
    var s, own := Session([], d), d.hardware[battery].range;
    if luck.loads && !d.runtime.HasOperation() {
      var begun := Save(s, StartCalibration(now, battery, read).(fenced := d.runtime.fenced), luck.begin);
      StatesGrow(s, begun, battery, own, read);
      if luck.begin.Saved? {
        SetRangeCovered(begun, battery, luck.write, luck.writeFence, own, read);
        var written := SetRange(begun, battery, luck.write, luck.writeFence);
        var end := StartCalibrating(d, now, battery, read, luck);
        if luck.write.Confirmed? {
          SetBehaviourCovered(written, battery, "force-discharge", luck.behaviour, luck.behaviourFence, own, read);
          var forced := SetBehaviour(written, battery, "force-discharge", luck.behaviour, luck.behaviourFence);
          if luck.behaviour.Refused? {
            SetRangeCovered(forced, battery, luck.undoWrite, luck.undoFence, own, read);
            assert !Names(d.runtime, battery, read);
          } else {
            StatesGrow(forced, end, battery, own, read);
          }
        } else {
          StatesGrow(written, end, battery, own, read);
        }
      }
    }
  }

  /** A state that names another range than the device's own, which the device has left. */
  lemma {:induction false} CalibrationLoses(d: Durable, now: nat, battery: string, read: Range, luck: Luck)
    requires battery in d.hardware && read != d.hardware[battery].range
    requires CalibrationMoves(d, d.hardware[battery].range, luck)
    ensures !AllRecoverable(StartCalibrating(d, now, battery, read, luck), battery, d.hardware[battery].range)
  {
    var own := d.hardware[battery].range;
    var begun := Save(Session([], d), StartCalibration(now, battery, read).(fenced := d.runtime.fenced), luck.begin);
    var written := SetRange(begun, battery, luck.write, luck.writeFence);
    var end := StartCalibrating(d, now, battery, read, luck);
    var forced := SetBehaviour(written, battery, "force-discharge", luck.behaviour, luck.behaviourFence);
    if Moves(luck.write, own) {
      assert !Recoverable(written.now, battery, own);
      assert written.now in end.States();
    } else {
      var back := SetRange(forced, battery, luck.undoWrite, luck.undoFence);
      assert !Recoverable(back.now, battery, own);
      assert back.now in end.States();
    }
  }

  ghost predicate AllAt(s: Session, battery: string, own: Range) {
    forall d :: d in s.States() ==> battery in d.hardware && d.hardware[battery].range == own
  }

  lemma {:induction false} StayPut(s: Session, battery: string, w: RangeWrite, fence: LoadSave, own: Range)
    requires AllAt(s, battery, own) && battery in s.now.hardware && !Moves(w, own)
    ensures AllAt(SetRange(s, battery, w, fence), battery, own)
  {
    assert s.now in s.States();
  }

  lemma {:induction false} BehaveInPlace(
    s: Session, battery: string, wanted: string, w: BehaviourWrite, fence: LoadSave, own: Range)
    requires AllAt(s, battery, own) && battery in s.now.hardware
    ensures AllAt(SetBehaviour(s, battery, wanted, w, fence), battery, own)
  {
    assert s.now in s.States();
  }

  lemma {:induction false} SaveInPlace(s: Session, battery: string, r: Runtime, o: SaveOutcome, own: Range)
    requires AllAt(s, battery, own)
    ensures AllAt(Save(s, r, o), battery, own)
  {
    assert s.now in s.States();
  }

  lemma {:induction false} CalibrationStaysPut(d: Durable, now: nat, battery: string, read: Range, luck: Luck)
    requires battery in d.hardware && !CalibrationMoves(d, d.hardware[battery].range, luck)
    ensures AllAt(StartCalibrating(d, now, battery, read, luck), battery, d.hardware[battery].range)
  {
    var s, own := Session([], d), d.hardware[battery].range;
    if luck.loads && !d.runtime.HasOperation() {
      var r := StartCalibration(now, battery, read).(fenced := d.runtime.fenced);
      var begun := Save(s, r, luck.begin);
      SaveInPlace(s, battery, r, luck.begin, own);
      if luck.begin.Saved? {
        var written := SetRange(begun, battery, luck.write, luck.writeFence);
        StayPut(begun, battery, luck.write, luck.writeFence, own);
        SaveInPlace(written, battery, d.runtime, luck.undo, own);
        if luck.write.Confirmed? {
          var forced := SetBehaviour(written, battery, "force-discharge", luck.behaviour, luck.behaviourFence);
          BehaveInPlace(written, battery, "force-discharge", luck.behaviour, luck.behaviourFence, own);
          if luck.behaviour.Done? && luck.settle.Stored? {
            SaveInPlace(forced, battery, forced.now.runtime.Unfence(battery), luck.settle.save, own);
          } else if luck.behaviour.Refused? {
            StayPut(forced, battery, luck.undoWrite, luck.undoFence, own);
            SaveInPlace(SetRange(forced, battery, luck.undoWrite, luck.undoFence), battery, d.runtime, luck.undo, own);
          }
        }
      }
    }
  }

  /** The own range is recoverable throughout exactly when it was read and not given up, or never left. */
  lemma {:induction false} CalibrationRecoverable(d: Durable, now: nat, battery: string, read: Range, luck: Luck)
    requires battery in d.hardware
    ensures var own := d.hardware[battery].range;
      AllRecoverable(StartCalibrating(d, now, battery, read, luck), battery, own)
      <==> (read == own && !GivesUp(d, own, luck)) || !CalibrationMoves(d, own, luck)
  {
    var own := d.hardware[battery].range;
    var end := StartCalibrating(d, now, battery, read, luck);
    assert end.now in end.States();
    CalibrationCovered(d, now, battery, read, luck);
    if !CalibrationMoves(d, own, luck) {
      CalibrationStaysPut(d, now, battery, read, luck);
    } else if read != own {
      CalibrationLoses(d, now, battery, read, luck);
    }
  }

  // ---------------------------------------------------------------- the failing starts

  function AtFortySixty(): Durable {
    Durable(IDLE, map["BAT0" := Device(Range(40, 60), "auto")])
  }

  /** A charge-once that recorded a reading of 75-80 while the device had 40-60: that range is lost. */
  lemma {:induction false} StaleStartLosesRange(luck: Luck)
    requires luck.loads && luck.begin.Saved? && luck.write == Confirmed(Range(0, 100))
    ensures var end := ChargeOnce(AtFortySixty(), 0, "BAT0", Range(75, 80), luck).now;
      && end.hardware["BAT0"].range == Range(0, 100) && Names(end.runtime, "BAT0", Range(75, 80))
      && !Recoverable(end, "BAT0", Range(40, 60))
  {}

  /** A calibration whose discharge is refused and whose range write back is denied: nothing names 40-60. */
  lemma {:induction false} RefusedStartGivesUp(luck: Luck)
    requires luck.loads && luck.begin.Saved? && luck.write == Confirmed(Range(0, 100))
    requires luck.behaviour.Refused? && luck.undoWrite.Denied? && luck.undo.Saved?
    ensures GivesUp(AtFortySixty(), Range(40, 60), luck)
    ensures StartCalibrating(AtFortySixty(), 0, "BAT0", Range(40, 60), luck).now
         == Durable(IDLE, map["BAT0" := Device(Range(0, 100), "auto")])
  {}
}
