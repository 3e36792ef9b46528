/**
 The battery requests as the daemon runs them: loads, saves and hardware writes in order,
 with early returns. Each method passes through exactly the durable states of its session.
 */
module BatteryApi {
  import opened Outcomes
  import opened BatteryRuntime
  import opened BatteryProtocol

  datatype Reply = Completed | Active | Inactive | StateFailed | OperationFailed | OutcomeUnknown

  class Host {
    var runtime: Runtime
    var hardware: map<string, Device>
    /** The durable states before the present one. */
    ghost var past: seq<Durable>

    constructor (loaded: Runtime, devices: map<string, Device>)
      ensures runtime == loaded && hardware == devices && past == []
    {
      runtime, hardware := loaded, devices;
      past := [];
    }

    ghost function Now(): Durable
      reads this
    {
      Durable(runtime, hardware)
    }

    ghost function Passed(): Session
      reads this
    {
      Session(past, Now())
    }

    method SaveRuntime(next: Runtime, o: SaveOutcome) returns (ok: bool)
      modifies this
      ensures Passed() == Save(old(Passed()), next, o) && ok == o.Saved?
    {
      past := past + [Now()];
      if !o.KeptOld? {
        runtime := next;
      }
      ok := o.Saved?;
    }

    /** The helper call for a range: dispatch, and the fence when the outcome is unknown. */
    method WriteRange(battery: string, w: RangeWrite, fence: LoadSave)
      requires battery in hardware
      modifies this
      ensures Passed() == SetRange(old(Passed()), battery, w, fence)
      ensures battery in hardware
    {
      if w.Denied? {
        return;
      }
      past := past + [Now()];
      hardware := hardware[battery := hardware[battery].(range := w.left)];
      if w.Unknown? && fence.Stored? {
        var ok := SaveRuntime(runtime.Fence(battery), fence.save);
      }
    }

    method WriteBehaviour(battery: string, wanted: string, w: BehaviourWrite, fence: LoadSave)
      requires battery in hardware
      modifies this
      ensures Passed() == SetBehaviour(old(Passed()), battery, wanted, w, fence)
      ensures battery in hardware
    {
      if w.Refused? {
        return;
      }
      past := past + [Now()];
      hardware := hardware[battery := hardware[battery].(behaviour := if w.Done? then wanted else w.behaviour)];
      if w.Unclear? && fence.Stored? {
        var ok := SaveRuntime(runtime.Fence(battery), fence.save);
      }
    }

    method HardwareResponse(battery: string, o: LoadSave) returns (reply: Reply)
      modifies this
      ensures Passed() == Settle(old(Passed()), battery, o)
    {
      if o.Unread? {
        return StateFailed;
      }
      var ok := SaveRuntime(runtime.Unfence(battery), o.save);
      reply := if ok then Completed else StateFailed;
    }

    method RequestChargeOnce(now: nat, battery: string, range: Range, luck: Luck) returns (reply: Reply)
      requires battery in hardware && past == []
      modifies this
      ensures Passed() == ChargeOnce(old(Now()), now, battery, range, luck)
      ensures old(runtime).HasOperation() && luck.loads ==> reply == Active
    {
      if !luck.loads {
        return StateFailed;
      }
      var previous := runtime;
      if previous.HasOperation() {
        return Active;
      }
      var next := StartChargeOnce(now, battery, range);
      var ok := SaveRuntime(next.(fenced := previous.fenced), luck.begin);
      if !ok {
        return StateFailed;
      }
      WriteRange(battery, luck.write, luck.writeFence);
      match luck.write {
        case Confirmed(_) => reply := HardwareResponse(battery, luck.settle);
        case Denied =>
          ok := SaveRuntime(previous, luck.undo);
          reply := OperationFailed;
        case Unknown(_) => reply := OutcomeUnknown;
      }
    }

    method RequestCalibration(now: nat, battery: string, range: Range, luck: Luck) returns (reply: Reply)
      requires battery in hardware && past == []
      modifies this
      ensures Passed() == StartCalibrating(old(Now()), now, battery, range, luck)
      ensures old(runtime).HasOperation() && luck.loads ==> reply == Active
    {
      if !luck.loads {
        return StateFailed;
      }
      var previous := runtime;
      if previous.HasOperation() {
        return Active;
      }
      var next := StartCalibration(now, battery, range);
      var ok := SaveRuntime(next.(fenced := previous.fenced), luck.begin);
      if !ok {
        return StateFailed;
      }
      WriteRange(battery, luck.write, luck.writeFence);
      if luck.write.Unknown? {
        return OutcomeUnknown;
      } else if luck.write.Denied? {
        ok := SaveRuntime(previous, luck.undo);
        return OperationFailed;
      }
      WriteBehaviour(battery, "force-discharge", luck.behaviour, luck.behaviourFence);
      match luck.behaviour {
        case Done => reply := HardwareResponse(battery, luck.settle);
        case Unclear(_) => reply := OutcomeUnknown;
        case Refused => reply := RollBackCalibration(battery, previous, luck);
      }
    }

    method RollBackCalibration(battery: string, previous: Runtime, luck: Luck) returns (reply: Reply)
      requires battery in hardware
      modifies this
      ensures Passed() == RollbackCalibration(old(Passed()), battery, previous, luck)
    {
      WriteRange(battery, luck.undoWrite, luck.undoFence);
      if luck.undoWrite.Unknown? {
        return OutcomeUnknown;
      }
      var ok := SaveRuntime(previous, luck.undo);
      reply := OperationFailed;
    }

    method RequestCancel(battery: string, luck: Luck) returns (reply: Reply)
      requires battery in hardware && past == []
      modifies this
      ensures Passed() == CancelCalibration(old(Now()), battery, luck)
    {
      if !luck.loads {
        return StateFailed;
      }
      var pending := runtime;
      if pending.operation != Calibration || pending.operationBattery != battery {
        return Inactive;
      }
      pending := pending.(phase := Restoring);
      var ok := SaveRuntime(pending, luck.begin);
      if !ok {
        return StateFailed;
      }
      WriteBehaviour(battery, "auto", luck.behaviour, luck.behaviourFence);
      if !luck.behaviour.Done? {
        return if luck.behaviour.Refused? then OperationFailed else OutcomeUnknown;
      }
      if pending.operationRestore.None? {
        return StateFailed;
      }
      WriteRange(battery, luck.write, luck.writeFence);
      if !luck.write.Confirmed? {
        return if luck.write.Denied? then OperationFailed else OutcomeUnknown;
      }
      var cleared := pending.CompleteRestoration(luck.write.left, luck.write.left == pending.operationRestore.value);
      if cleared.None? {
        return OperationFailed;
      }
      ok := SaveRuntime(cleared.value, luck.finish);
      if !ok {
        return StateFailed;
      }
      reply := HardwareResponse(battery, luck.settle);
    }

    method RequestInhibit(now: nat, battery: string, luck: Luck) returns (reply: Reply)
      requires battery in hardware && past == []
      modifies this
      ensures Passed() == StartInhibiting(old(Now()), now, battery, luck)
    {
      if !luck.loads {
        return StateFailed;
      }
      var previous := runtime;
      if previous.HasOperation() {
        return Active;
      }
      var ok := SaveRuntime(StartInhibit(now, battery).(fenced := previous.fenced), luck.begin);
      if !ok {
        return StateFailed;
      }
      WriteBehaviour(battery, "inhibit-charge", luck.behaviour, luck.behaviourFence);
      match luck.behaviour {
        case Done => reply := HardwareResponse(battery, luck.settle);
        case Refused =>
          ok := SaveRuntime(previous, luck.undo);
          reply := OperationFailed;
        case Unclear(_) => reply := OutcomeUnknown;
      }
    }

    method RequestResume(battery: string, luck: Luck) returns (reply: Reply)
      requires battery in hardware && past == []
      modifies this
      ensures Passed() == StopInhibiting(old(Now()), battery, luck)
    {
      if !luck.loads {
        return StateFailed;
      }
      var pending := runtime;
      if pending.operation != Inhibit || pending.operationBattery != battery {
        return Inactive;
      }
      WriteBehaviour(battery, "auto", luck.behaviour, luck.behaviourFence);
      if !luck.behaviour.Done? {
        return if luck.behaviour.Refused? then OperationFailed else OutcomeUnknown;
      }
      var ok := SaveRuntime(pending.ClearOperation(), luck.finish);
      if !ok {
        return StateFailed;
      }
      reply := HardwareResponse(battery, luck.settle);
    }
  }
}
