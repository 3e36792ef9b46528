/** Battery notifications and levels, which share one hysteresis rule. */
module BatteryAlerts {
  import opened Outcomes

  const RECOVERY_MARGIN := 3

  type Percent = n: nat | n <= 100

  datatype Reading = Reading(
    available: bool,
    plugged: bool,
    percentage: Percent,
    warningPercent: nat,
    criticalPercent: nat,
    notifyWarning: bool,
    notifyCritical: bool,
    notifyFull: bool,
    chargeOnce: bool,
    protectionEnabled: bool,
    protectedEnd: Option<nat>)

  datatype Alert = Warning | Critical | ChargeComplete(percent: nat)

  datatype Flags = Flags(initialized: bool, warning: bool, critical: bool, full: bool)

  const UNSET := Flags(false, false, false, false)

  /** Strictly above the threshold plus the margin, which never exceeds 100. */
  predicate Recovered(percentage: Percent, threshold: nat) {
    percentage > Min(Min(threshold + RECOVERY_MARGIN, 255), 100)
  }

  function CompleteAt(r: Reading): nat {
    if r.chargeOnce then 100 else if r.protectionEnabled then r.protectedEnd.GetOr(100) else 100
  }

  function Charging(f: Flags, r: Reading): (Flags, Option<Alert>) {
    var rearmed := f.(warning := false, critical := false);
    if r.percentage < CompleteAt(r) then (rearmed.(full := false), None)
    else (rearmed.(full := true), if !f.full && r.notifyFull then Some(ChargeComplete(CompleteAt(r))) else None)
  }

  function Discharging(f: Flags, r: Reading): (Flags, Option<Alert>) {
    var g := Flags(f.initialized,
                   f.warning && !Recovered(r.percentage, r.warningPercent),
                   f.critical && !Recovered(r.percentage, r.criticalPercent),
                   false);
    if r.percentage <= r.criticalPercent then
      (g.(warning := true, critical := true), if !g.critical && r.notifyCritical then Some(Critical) else None)
    else if r.percentage <= r.warningPercent then
      (g.(warning := true), if !g.warning && r.notifyWarning then Some(Warning) else None)
    else (g, None)
  }

  function Observe(f: Flags, r: Reading): (Flags, Option<Alert>) {
    if !r.available then (f, None)
    else if !f.initialized then
      (Flags(true, !r.plugged && r.percentage <= r.warningPercent, !r.plugged && r.percentage <= r.criticalPercent,
             r.plugged && r.percentage >= CompleteAt(r)), None)
    else if r.plugged then Charging(f, r)
    else Discharging(f, r)
  }

  class AlertTracker {
    var initialized: bool
    var warningSent: bool
    var criticalSent: bool
    var fullSent: bool

    ghost function Value(): Flags
      reads this
    {
      Flags(initialized, warningSent, criticalSent, fullSent)
    }

    constructor ()
      ensures Value() == UNSET
    {
      initialized, warningSent, criticalSent, fullSent := false, false, false, false;
    }

    method ObserveReading(r: Reading) returns (alert: Option<Alert>)
      modifies this
      ensures (Value(), alert) == Observe(old(Value()), r)
    {
      if !r.available {
        return None;
      }
      var completeAt := CompleteAt(r);
      if !initialized {
        initialized := true;
        warningSent := !r.plugged && r.percentage <= r.warningPercent;
        criticalSent := !r.plugged && r.percentage <= r.criticalPercent;
        fullSent := r.plugged && r.percentage >= completeAt;
        return None;
      }
      if r.plugged {
        alert := ObserveCharging(r, completeAt);
      } else {
        alert := ObserveDischarging(r);
      }
    }

    method ObserveCharging(r: Reading, completeAt: nat) returns (alert: Option<Alert>)
      requires completeAt == CompleteAt(r)
      modifies this
      ensures (Value(), alert) == Charging(old(Value()), r)
    {
      warningSent, criticalSent := false, false;
      if r.percentage < completeAt {
        fullSent := false;
        return None;
      }
      var before := fullSent;
      fullSent := true;
      alert := if !before && r.notifyFull then Some(ChargeComplete(completeAt)) else None;
    }

    method ObserveDischarging(r: Reading) returns (alert: Option<Alert>)
      modifies this
      ensures (Value(), alert) == Discharging(old(Value()), r)
    {
      alert := None;
      fullSent := false;
      if Recovered(r.percentage, r.warningPercent) {
        warningSent := false;
      }
      if Recovered(r.percentage, r.criticalPercent) {
        criticalSent := false;
      }
      if r.percentage <= r.criticalPercent {
        warningSent := true;
        var before := criticalSent;
        criticalSent := true;
        if !before && r.notifyCritical {
          alert := Some(Critical);
        }
      } else if r.percentage <= r.warningPercent {
        var before := warningSent;
        warningSent := true;
        if !before && r.notifyWarning {
          alert := Some(Warning);
        }
      }
    }
  }

  // ---------------------------------------------------------------- runs

  function FlagsAfter(readings: seq<Reading>): Flags {
    if readings == [] then UNSET else Observe(FlagsAfter(readings[..|readings| - 1]), readings[|readings| - 1]).0
  }

  /** The alert given at reading `n`. */
  function AlertAt(readings: seq<Reading>, n: nat): Option<Alert>
    requires n < |readings|
  {
    Observe(FlagsAfter(readings[..n]), readings[n]).1
  }

  predicate AnyAvailable(readings: seq<Reading>, n: nat)
    requires n <= |readings|
  {
    exists i :: 0 <= i < n && readings[i].available
  }

  lemma {:induction false} InitializedExactly(readings: seq<Reading>)
    ensures FlagsAfter(readings).initialized <==> AnyAvailable(readings, |readings|)
  {
    if readings != [] {
      var n := |readings| - 1;
      InitializedExactly(readings[..n]);
      if AnyAvailable(readings[..n], n) {
        var i :| 0 <= i < n && readings[..n][i].available;
        assert readings[i].available;
      }
      if AnyAvailable(readings, n + 1) && !readings[n].available {
        var i :| 0 <= i < n + 1 && readings[i].available;
        assert readings[..n][i].available;
      }
      if readings[n].available {
        assert AnyAvailable(readings, n + 1);
      }
    }
  }

  /** The first available reading never alerts, and an unavailable one never does. */
  lemma {:induction false} FirstNeverAlerts(readings: seq<Reading>, n: nat)
    requires n < |readings| && !AnyAvailable(readings, n)
    ensures AlertAt(readings, n).None?
  {
    InitializedExactly(readings[..n]);
    assert !AnyAvailable(readings[..n], n);
  }

  // What spends each alert, and what rearms it. The first available reading spends without alerting.

  predicate SpendsWarning(readings: seq<Reading>, i: nat)
    requires i < |readings|
  {
    var r := readings[i];
    r.available && !r.plugged
    && (r.percentage <= r.warningPercent || (r.percentage <= r.criticalPercent && AnyAvailable(readings, i)))
  }

  predicate RearmsWarning(r: Reading) {
    r.available && (r.plugged || Recovered(r.percentage, r.warningPercent))
  }

  predicate SpendsCritical(r: Reading) {
    r.available && !r.plugged && r.percentage <= r.criticalPercent
  }

  predicate RearmsCritical(r: Reading) {
    r.available && (r.plugged || Recovered(r.percentage, r.criticalPercent))
  }

  predicate SpendsFull(r: Reading) {
    r.available && r.plugged && r.percentage >= CompleteAt(r)
  }

  predicate RearmsFull(r: Reading) {
    r.available && (!r.plugged || r.percentage < CompleteAt(r))
  }

  /** Spent before reading `n` and not rearmed since. */
  ghost predicate WarningSpent(readings: seq<Reading>, n: nat)
    requires n <= |readings|
  {
    exists i :: 0 <= i < n && SpendsWarning(readings, i) && forall k :: i < k < n ==> !RearmsWarning(readings[k])
  }

  ghost predicate CriticalSpent(readings: seq<Reading>, n: nat)
    requires n <= |readings|
  {
    exists i :: 0 <= i < n && SpendsCritical(readings[i]) && forall k :: i < k < n ==> !RearmsCritical(readings[k])
  }

  ghost predicate FullSpent(readings: seq<Reading>, n: nat)
    requires n <= |readings|
  {
    exists i :: 0 <= i < n && SpendsFull(readings[i]) && forall k :: i < k < n ==> !RearmsFull(readings[k])
  }

  lemma {:induction false} WarningFlagExactly(readings: seq<Reading>, n: nat)
    requires n <= |readings|
    ensures FlagsAfter(readings[..n]).warning <==> WarningSpent(readings, n)
  {
    if n > 0 {
      var m := n - 1;
      WarningFlagExactly(readings, m);
      assert readings[..n][..m] == readings[..m];
      InitializedExactly(readings[..m]);
      AvailableInPrefix(readings, m);
      assert WarningSpent(readings, m) ==> AnyAvailable(readings, m);
      WarningStep(FlagsAfter(readings[..m]), readings, m);
      WarningSpentStep(readings, m);
    }
  }

  /** A reading spends the warning, or rearms it, or leaves it. */
  lemma {:induction false} WarningStep(f: Flags, readings: seq<Reading>, m: nat)
    requires m < |readings| && (f.initialized <==> AnyAvailable(readings, m)) && (f.initialized || !f.warning)
    ensures Observe(f, readings[m]).0.warning
            <==> SpendsWarning(readings, m) || (f.warning && !RearmsWarning(readings[m]))
  {}

  lemma {:induction false} WarningSpentStep(readings: seq<Reading>, m: nat)
    requires m < |readings|
    ensures WarningSpent(readings, m + 1)
            <==> SpendsWarning(readings, m) || (WarningSpent(readings, m) && !RearmsWarning(readings[m]))
  {}

  lemma {:induction false} AvailableInPrefix(readings: seq<Reading>, n: nat)
    requires n <= |readings|
    ensures AnyAvailable(readings[..n], n) <==> AnyAvailable(readings, n)
  {}

  lemma {:induction false} CriticalFlagExactly(readings: seq<Reading>, n: nat)
    requires n <= |readings|
    ensures FlagsAfter(readings[..n]).critical <==> CriticalSpent(readings, n)
  {
    if n > 0 {
      var m := n - 1;
      CriticalFlagExactly(readings, m);
      assert readings[..n][..m] == readings[..m];
      InitializedExactly(readings[..m]);
      AvailableInPrefix(readings, m);
      assert CriticalSpent(readings, m) ==> AnyAvailable(readings, m);
      CriticalStep(FlagsAfter(readings[..m]), readings[m]);
      CriticalSpentStep(readings, m);
    }
  }

  /** A reading spends the critical alert, or rearms it, or leaves it. */
  lemma {:induction false} CriticalStep(f: Flags, r: Reading)
    requires f.initialized || !f.critical
    ensures Observe(f, r).0.critical <==> SpendsCritical(r) || (f.critical && !RearmsCritical(r))
  {}

  lemma {:induction false} CriticalSpentStep(readings: seq<Reading>, m: nat)
    requires m < |readings|
    ensures CriticalSpent(readings, m + 1)
            <==> SpendsCritical(readings[m]) || (CriticalSpent(readings, m) && !RearmsCritical(readings[m]))
  {}

  /** A reading spends the completion, or rearms it, or leaves it. */
  lemma {:induction false} FullStep(f: Flags, r: Reading)
    requires f.initialized || !f.full
    ensures Observe(f, r).0.full <==> SpendsFull(r) || (f.full && !RearmsFull(r))
  {}

  lemma {:induction false} FullFlagExactly(readings: seq<Reading>, n: nat)
    requires n <= |readings|
    ensures FlagsAfter(readings[..n]).full <==> FullSpent(readings, n)
  {
    if n > 0 {
      var m := n - 1;
      FullFlagExactly(readings, m);
      assert readings[..n][..m] == readings[..m];
      InitializedExactly(readings[..m]);
      AvailableInPrefix(readings, m);
      assert FullSpent(readings, m) ==> AnyAvailable(readings, m);
      FullStep(FlagsAfter(readings[..m]), readings[m]);
      FullSpentStep(readings, m);
    }
  }

  lemma {:induction false} FullSpentStep(readings: seq<Reading>, m: nat)
    requires m < |readings|
    ensures FullSpent(readings, m + 1)
            <==> SpendsFull(readings[m]) || (FullSpent(readings, m) && !RearmsFull(readings[m]))
  {}

  /** Exactly when each alert is given, for every sequence of readings and changing policy. */
  lemma {:induction false} AlertsExactly(readings: seq<Reading>, n: nat)
    requires n < |readings|
    ensures var r := readings[n];
      var awake := r.available && AnyAvailable(readings, n);
      && (AlertAt(readings, n) == Some(Warning) <==>
            awake && !r.plugged && r.criticalPercent < r.percentage <= r.warningPercent && r.notifyWarning
            && !WarningSpent(readings, n))
      && (AlertAt(readings, n) == Some(Critical) <==>
            awake && !r.plugged && r.percentage <= r.criticalPercent && r.notifyCritical
            && !CriticalSpent(readings, n))
      && (AlertAt(readings, n) == Some(ChargeComplete(CompleteAt(r))) <==>
            awake && r.plugged && r.percentage >= CompleteAt(r) && r.notifyFull && !FullSpent(readings, n))
  {
    WarningFlagExactly(readings, n);
    CriticalFlagExactly(readings, n);
    FullFlagExactly(readings, n);
    InitializedExactly(readings[..n]);
    AvailableInPrefix(readings, n);
  }

  /** Two warnings, or two criticals, are separated by a plugged reading or a recovered one, and two
      completions by an unplugged reading or one below the completion level. */
  lemma {:induction false} AlertsAreSeparated(readings: seq<Reading>, i: nat, j: nat)
    requires i < j < |readings|
    ensures AlertAt(readings, i) == AlertAt(readings, j) == Some(Warning) ==>
      exists k :: i < k < j && RearmsWarning(readings[k])
    ensures AlertAt(readings, i) == AlertAt(readings, j) == Some(Critical) ==>
      exists k :: i < k < j && RearmsCritical(readings[k])
    ensures Completes(AlertAt(readings, i)) && Completes(AlertAt(readings, j)) ==>
      exists k :: i < k < j && RearmsFull(readings[k])
  {
    AlertsExactly(readings, i);
    AlertsExactly(readings, j);
    assert AlertAt(readings, i) == Some(Warning) ==> SpendsWarning(readings, i);
  }

  /** The reading is on power, or more than three percent above the level, as far as there are percents. */
  predicate ClearOf(r: Reading, level: nat) {
    r.available && (r.plugged || r.percentage > (if level + 3 <= 100 then level + 3 else 100))
  }

  /** The level at which charging is complete: full, unless protection holds it lower and nothing overrides it. */
  predicate FullAt(r: Reading, level: nat) {
    if !r.chargeOnce && r.protectionEnabled && r.protectedEnd.Some? then level == r.protectedEnd.value
    else level == 100
  }

  /** The same separation in percents: two warnings or criticals with a reading on power or more than three percent
      above the level between them, two completions with one on battery or below the complete level. */
  lemma {:induction false} AlertsAreApart(readings: seq<Reading>, i: nat, j: nat) returns (k: nat)
    requires i < j < |readings|
    ensures AlertAt(readings, i) == AlertAt(readings, j) == Some(Warning) ==>
      i < k < j && ClearOf(readings[k], readings[k].warningPercent)
    ensures AlertAt(readings, i) == AlertAt(readings, j) == Some(Critical) ==>
      i < k < j && ClearOf(readings[k], readings[k].criticalPercent)
    ensures Completes(AlertAt(readings, i)) && Completes(AlertAt(readings, j)) ==>
      i < k < j && readings[k].available
      && (!readings[k].plugged || exists level :: FullAt(readings[k], level) && readings[k].percentage < level)
  {
    AlertsAreSeparated(readings, i, j);
    k := 0;
    if AlertAt(readings, i) == AlertAt(readings, j) == Some(Warning) {
      k :| i < k < j && RearmsWarning(readings[k]);
    } else if AlertAt(readings, i) == AlertAt(readings, j) == Some(Critical) {
      k :| i < k < j && RearmsCritical(readings[k]);
    } else if Completes(AlertAt(readings, i)) && Completes(AlertAt(readings, j)) {
      k :| i < k < j && RearmsFull(readings[k]);
      assert FullAt(readings[k], CompleteAt(readings[k]));
    }
  }

  /** And any such reading arms the alert again: three percent and no more. */
  lemma {:induction false} ClearReadingRearms(readings: seq<Reading>, n: nat)
    requires n < |readings| && ValidPolicy(readings[n])
    ensures ClearOf(readings[n], readings[n].warningPercent) ==> !FlagsAfter(readings[..n + 1]).warning
    ensures ClearOf(readings[n], readings[n].criticalPercent) ==> !FlagsAfter(readings[..n + 1]).critical
    ensures readings[n].available
      && (!readings[n].plugged || exists level :: FullAt(readings[n], level) && readings[n].percentage < level)
      ==> !FlagsAfter(readings[..n + 1]).full
  {
    assert readings[..n + 1][..n] == readings[..n];
  }

  /** Completion is announced at that level, never below it, and only on power. */
  lemma {:induction false} CompletionMeans(readings: seq<Reading>, n: nat)
    requires n < |readings| && Completes(AlertAt(readings, n))
    ensures readings[n].available && readings[n].plugged && FullAt(readings[n], AlertAt(readings, n).value.percent)
    ensures readings[n].percentage >= AlertAt(readings, n).value.percent
  {}

  predicate Completes(alert: Option<Alert>) {
    alert.Some? && alert.value.ChargeComplete?
  }

  // ---------------------------------------------------------------- levels

  datatype Level = Normal | Low | CriticalLevel

  function ObserveLevel(level: Level, r: Reading): Level {
    if !r.available || r.plugged then Normal
    else if r.percentage <= r.criticalPercent
         || (level == CriticalLevel && !Recovered(r.percentage, r.criticalPercent)) then CriticalLevel
    else if r.percentage <= r.warningPercent
         || (level != Normal && !Recovered(r.percentage, r.warningPercent)) then Low
    else Normal
  }

  function LevelAfter(readings: seq<Reading>): Level {
    if readings == [] then Normal else ObserveLevel(LevelAfter(readings[..|readings| - 1]), readings[|readings| - 1])
  }

  // A level is held by a reading that enters it, as long as later readings are available and do not rearm.

  predicate Keeps(r: Reading, rearms: bool) {
    r.available && !rearms
  }

  ghost predicate CriticalHeld(readings: seq<Reading>, n: nat)
    requires n <= |readings|
  {
    exists i :: 0 <= i < n && SpendsCritical(readings[i])
      && forall k :: i < k < n ==> Keeps(readings[k], RearmsCritical(readings[k]))
  }

  ghost predicate WarningHeld(readings: seq<Reading>, n: nat)
    requires n <= |readings|
  {
    exists i :: 0 <= i < n && SpendsWarning(readings, i)
      && forall k :: i < k < n ==> Keeps(readings[k], RearmsWarning(readings[k]))
  }

  lemma {:induction false} CriticalHeldStep(readings: seq<Reading>, m: nat)
    requires m < |readings|
    ensures CriticalHeld(readings, m + 1)
            <==> SpendsCritical(readings[m])
                 || (CriticalHeld(readings, m) && Keeps(readings[m], RearmsCritical(readings[m])))
  {
    if CriticalHeld(readings, m) && Keeps(readings[m], RearmsCritical(readings[m])) {
      var i :| 0 <= i < m && SpendsCritical(readings[i])
        && forall k :: i < k < m ==> Keeps(readings[k], RearmsCritical(readings[k]));
      assert forall k :: i < k < m + 1 ==> Keeps(readings[k], RearmsCritical(readings[k]));
    }
  }

  lemma {:induction false} WarningHeldStep(readings: seq<Reading>, m: nat)
    requires m < |readings|
    ensures WarningHeld(readings, m + 1)
            <==> SpendsWarning(readings, m)
                 || (WarningHeld(readings, m) && Keeps(readings[m], RearmsWarning(readings[m])))
  {
    if WarningHeld(readings, m) && Keeps(readings[m], RearmsWarning(readings[m])) {
      var i :| 0 <= i < m && SpendsWarning(readings, i)
        && forall k :: i < k < m ==> Keeps(readings[k], RearmsWarning(readings[k]));
      assert forall k :: i < k < m + 1 ==> Keeps(readings[k], RearmsWarning(readings[k]));
    }
  }

  lemma {:induction false} CriticalLevelExactly(readings: seq<Reading>, n: nat)
    requires n <= |readings|
    ensures LevelAfter(readings[..n]) == CriticalLevel <==> CriticalHeld(readings, n)
  {
    if n > 0 {
      CriticalLevelExactly(readings, n - 1);
      assert readings[..n][..n - 1] == readings[..n - 1];
      CriticalHeldStep(readings, n - 1);
    }
  }

  /** What a saved policy is checked for. */
  predicate ValidPolicy(r: Reading) {
    r.criticalPercent <= r.warningPercent <= 100
  }

  lemma {:induction false} LowerLevelStep(level: Level, readings: seq<Reading>, m: nat)
    requires m < |readings| && ValidPolicy(readings[m])
    ensures ObserveLevel(level, readings[m]) != Normal
            <==> SpendsWarning(readings, m)
                 || (level != Normal && Keeps(readings[m], RearmsWarning(readings[m])))
  {}

  lemma {:induction false} LowerLevelExactly(readings: seq<Reading>, n: nat)
    requires n <= |readings| && forall i :: 0 <= i < |readings| ==> ValidPolicy(readings[i])
    ensures LevelAfter(readings[..n]) != Normal <==> WarningHeld(readings, n)
  {
    if n > 0 {
      LowerLevelExactly(readings, n - 1);
      assert readings[..n][..n - 1] == readings[..n - 1];
      LowerLevelStep(LevelAfter(readings[..n - 1]), readings, n - 1);
      WarningHeldStep(readings, n - 1);
    }
  }

  /**
   When notifications and automatic profiles see the same episode: exactly when a spent alert was
   spent by a reading after which no reading was unavailable.
   */
  lemma {:induction false} LevelsMatchAlerts(readings: seq<Reading>, n: nat)
    requires n <= |readings|
    ensures (FlagsAfter(readings[..n]).critical <==> LevelAfter(readings[..n]) == CriticalLevel)
            <==> (CriticalSpent(readings, n) ==> CriticalHeld(readings, n))
    ensures (forall i :: 0 <= i < |readings| ==> ValidPolicy(readings[i])) ==>
            ((FlagsAfter(readings[..n]).warning <==> LevelAfter(readings[..n]) != Normal)
             <==> (WarningSpent(readings, n) ==> WarningHeld(readings, n)))
  {
    CriticalFlagExactly(readings, n);
    CriticalLevelExactly(readings, n);
    HeldIsSpent(readings, n);
    WarningFlagExactly(readings, n);
    if forall i :: 0 <= i < |readings| ==> ValidPolicy(readings[i]) {
      LowerLevelExactly(readings, n);
    }
  }

  lemma {:induction false} HeldIsSpent(readings: seq<Reading>, n: nat)
    requires n <= |readings|
    ensures CriticalHeld(readings, n) ==> CriticalSpent(readings, n)
    ensures WarningHeld(readings, n) ==> WarningSpent(readings, n)
  {
    if CriticalHeld(readings, n) {
      var i :| 0 <= i < n && SpendsCritical(readings[i])
        && forall k :: i < k < n ==> Keeps(readings[k], RearmsCritical(readings[k]));
      assert forall k :: i < k < n ==> !RearmsCritical(readings[k]);
    }
    if WarningHeld(readings, n) {
      var i :| 0 <= i < n && SpendsWarning(readings, i)
        && forall k :: i < k < n ==> Keeps(readings[k], RearmsWarning(readings[k]));
      assert forall k :: i < k < n ==> !RearmsWarning(readings[k]);
    }
  }

  /** While every reading is available the two never differ. */
  lemma {:induction false} AvailableLevelsMatch(readings: seq<Reading>)
    requires forall i :: 0 <= i < |readings| ==> readings[i].available && ValidPolicy(readings[i])
    ensures FlagsAfter(readings).critical <==> LevelAfter(readings) == CriticalLevel
    ensures FlagsAfter(readings).warning <==> LevelAfter(readings) != Normal
  {
    var n := |readings|;
    assert readings[..n] == readings;
    LevelsMatchAlerts(readings, n);
    if CriticalSpent(readings, n) {
      var i :| 0 <= i < n && SpendsCritical(readings[i]) && forall k :: i < k < n ==> !RearmsCritical(readings[k]);
      assert forall k :: i < k < n ==> Keeps(readings[k], RearmsCritical(readings[k]));
    }
    if WarningSpent(readings, n) {
      var i :| 0 <= i < n && SpendsWarning(readings, i) && forall k :: i < k < n ==> !RearmsWarning(readings[k]);
      assert forall k :: i < k < n ==> Keeps(readings[k], RearmsWarning(readings[k]));
    }
  }

  /** A low reading and then an unavailable one: the level ends, the alert does not. */
  lemma {:induction false} UnavailableDiverges(low: Reading, lost: Reading)
    requires low.available && !low.plugged && low.percentage <= low.criticalPercent <= low.warningPercent <= 100
    requires !lost.available
    ensures FlagsAfter([low, lost]).critical && LevelAfter([low, lost]) == Normal
  {
    assert [low, lost][..1] == [low] && [low][..0] == [];
    assert FlagsAfter([low]).critical;
  }
}
