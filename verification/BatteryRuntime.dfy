/** The durable record of a pending charge-once, inhibition or calibration. */
module BatteryRuntime {
  import opened Outcomes

  const CHARGE_ONCE_MAX_AGE := 24 * 60 * 60 * 1000
  const CALIBRATION_MAX_AGE := 48 * 60 * 60 * 1000

  datatype OperationKind = NoOperation | Inhibit | Calibration

  datatype Phase = NoPhase | Paused | Discharging | Charging | Restoring

  datatype Range = Range(start: nat, end: nat)

  datatype Runtime = Runtime(
    fenced: seq<string>,
    chargeOnce: bool,
    chargeOnceBattery: string,
    chargeOnceStarted: nat,
    chargeOnceExpires: nat,
    restore: Option<Range>,
    operation: OperationKind,
    operationBattery: string,
    phase: Phase,
    operationStarted: nat,
    operationExpires: nat,
    operationRestore: Option<Range>)
  {
    predicate HasOperation() {
      chargeOnce || operation != NoOperation
    }

    predicate ChargeOnceTargets(battery: string) {
      chargeOnce && (chargeOnceBattery == "" || chargeOnceBattery == battery)
    }

    predicate ChargeOnceExpired(now: nat) {
      chargeOnce && chargeOnceExpires != 0 && now >= chargeOnceExpires
    }

    predicate OperationExpired(now: nat) {
      operation != NoOperation && operationExpires != 0 && now >= operationExpires
    }

    function ClearOperation(): Runtime {
      this.(operation := NoOperation, operationBattery := "", phase := NoPhase,
            operationStarted := 0, operationExpires := 0, operationRestore := None)
    }

    /** Clears a calibration only after an exact verified readback of the recorded range. */
    function CompleteRestoration(actual: Range, verified: bool): Option<Runtime> {
      if operation == Calibration && verified && operationRestore == Some(actual)
      then Some(ClearOperation()) else None
    }

    function Fence(battery: string): Runtime {
      if battery in fenced then this else this.(fenced := fenced + [battery])
    }

    function Unfence(battery: string): Runtime {
      this.(fenced := Without(fenced, battery))
    }
  }

  const IDLE := Runtime([], false, "", 0, 0, None, NoOperation, "", NoPhase, 0, 0, None)

  function Without(ids: seq<string>, id: string): seq<string> {
    if ids == [] then []
    else if ids[0] == id then Without(ids[1..], id)
    else [ids[0]] + Without(ids[1..], id)
  }

  lemma {:induction false} WithoutRemoves(ids: seq<string>, id: string)
    ensures forall other :: other in Without(ids, id) <==> other in ids && other != id
  {
    if ids != [] {
      WithoutRemoves(ids[1..], id);
      assert ids == [ids[0]] + ids[1..];
    }
  }

  function StartChargeOnce(now: nat, battery: string, range: Range): Runtime {
    IDLE.(chargeOnce := true, chargeOnceBattery := battery, chargeOnceStarted := now,
          chargeOnceExpires := SatAdd(now, CHARGE_ONCE_MAX_AGE), restore := Some(range))
  }

  function StartInhibit(now: nat, battery: string): Runtime {
    IDLE.(operation := Inhibit, operationBattery := battery, phase := Paused, operationStarted := now)
  }

  function StartCalibration(now: nat, battery: string, range: Range): Runtime {
    IDLE.(operation := Calibration, operationBattery := battery, phase := Discharging,
          operationStarted := now, operationExpires := SatAdd(now, CALIBRATION_MAX_AGE),
          operationRestore := Some(range))
  }

  predicate ValidThresholds(start: nat, end: nat) {
    start < end <= 100
  }

  /** The record lets a restart put `range` back on `battery`. */
  predicate Names(r: Runtime, battery: string, range: Range) {
    || (r.chargeOnce && r.chargeOnceBattery == battery && r.restore == Some(range))
    || (r.operation == Calibration && r.operationBattery == battery && r.operationRestore == Some(range))
  }

  /** At most one of charge-once and another operation is pending. */
  predicate Exclusive(r: Runtime) {
    !(r.chargeOnce && r.operation != NoOperation)
  }

  /** A pending operation is kept as recorded, or nothing is pending any more. A charge-once
      without a battery id may be given one. */
  predicate KeepsPending(before: Runtime, after: Runtime) {
    && (before.chargeOnce ==>
          || !after.HasOperation()
          || (after.chargeOnce && after.restore == before.restore
              && (after.chargeOnceBattery == before.chargeOnceBattery || before.chargeOnceBattery == "")))
    && (before.operation != NoOperation ==>
          || !after.HasOperation()
          || (after.operation == before.operation && after.operationBattery == before.operationBattery
              && after.operationRestore == before.operationRestore))
  }
}
