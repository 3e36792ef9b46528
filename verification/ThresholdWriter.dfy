/** The privileged writer: two threshold files, written in an order that stays valid. */
module ThresholdWriter {
  import opened BatteryRuntime

  /** How one file write ends: done, refused by the kernel, or done with another value kept. */
  datatype FileWrite = Written | Failed | Rounded(kept: nat)

  datatype WriteReport =
    | Invalid
    | Finished(actual: Range, verified: bool)
    | FirstFailed
    | RolledBack
    | RollbackFailed

  /** What a file holds after a write. */
  function Left(before: nat, value: nat, w: FileWrite): nat {
    match w
    case Written => value
    case Failed => before
    case Rounded(kept) => kept
  }

  class Device {
    var start: nat
    var end: nat
    /** Every pair of values the files have held since construction, oldest first. */
    ghost var seen: seq<Range>

    constructor (initialStart: nat, initialEnd: nat)
      ensures start == initialStart && end == initialEnd && seen == [Range(start, end)]
    {
      start, end := initialStart, initialEnd;
      seen := [Range(initialStart, initialEnd)];
    }

    method WriteStart(value: nat, w: FileWrite) returns (ok: bool)
      modifies this
      ensures start == Left(old(start), value, w) && end == old(end)
      ensures seen == old(seen) + [Range(start, end)] && ok == !w.Failed?
    {
      match w {
        case Written => start := value;
        case Failed =>
        case Rounded(kept) => start := kept;
      }
      seen := seen + [Range(start, end)];
      ok := !w.Failed?;
    }

    method WriteEnd(value: nat, w: FileWrite) returns (ok: bool)
      modifies this
      ensures end == Left(old(end), value, w) && start == old(start)
      ensures seen == old(seen) + [Range(start, end)] && ok == !w.Failed?
    {
      match w {
        case Written => end := value;
        case Failed =>
        case Rounded(kept) => end := kept;
      }
      seen := seen + [Range(start, end)];
      ok := !w.Failed?;
    }

    /** Sets both thresholds; `first`, `second` and `undo` say how each file write ends. */
    method SetThresholds(newStart: nat, newEnd: nat, first: FileWrite, second: FileWrite, undo: FileWrite)
      returns (report: WriteReport)
      modifies this
      ensures report.Invalid? <==> !(newStart < newEnd <= 100)
      // Nothing is touched by an invalid request or one that is already met.
      ensures report.Invalid? || (old(start) == newStart && old(end) == newEnd) ==>
        start == old(start) && end == old(end) && seen == old(seen)
      // A finished report is an exact readback.
      ensures report.Finished? ==> report.actual == Range(start, end)
      ensures report.Finished? ==> (report.verified <==> start == newStart && end == newEnd)
      ensures first.Written? && second.Written? && !report.Invalid? ==> report.Finished? && report.verified
      // Each failure is told from the others, and a failed second write is always followed by an undo.
      ensures !report.Invalid? && (old(start) != newStart || old(end) != newEnd) ==>
        && (report.FirstFailed? <==> first.Failed?)
        && (report.RolledBack? <==> !first.Failed? && second.Failed? && !undo.Failed?)
        && (report.RollbackFailed? <==> !first.Failed? && second.Failed? && undo.Failed?)
      // The end is raised before the start when the new start would pass it, else the start goes first.
      ensures !report.Invalid? && (old(start) != newStart || old(end) != newEnd) ==>
        && |seen| > |old(seen)|
        && seen[|old(seen)|] == (if newStart >= old(end) then Range(old(start), Left(old(end), newEnd, first))
                                 else Range(Left(old(start), newStart, first), old(end)))
      // A rolled-back write that was not rounded leaves the device as it was.
      ensures report.RolledBack? && undo.Written? ==> start == old(start) && end == old(end)
      ensures report.FirstFailed? ==> start == old(start) && end == old(end)
      // Unrounded writes pass only through valid pairs, whichever of them fail.
      ensures !first.Rounded? && !second.Rounded? && !undo.Rounded? && ValidThresholds(old(start), old(end)) ==>
        |seen| >= |old(seen)| && forall k :: |old(seen)| <= k < |seen| ==> ValidThresholds(seen[k].start, seen[k].end)
    {
      if !ValidThresholds(newStart, newEnd) {
        return Invalid;
      }
      var currentStart, currentEnd := start, end;
      if currentStart == newStart && currentEnd == newEnd {
        return Finished(Range(newStart, newEnd), true);
      }
      if newStart >= currentEnd {
        var ok := WriteEnd(newEnd, first);
        if !ok {
          return FirstFailed;
        }
        ok := WriteStart(newStart, second);
        if !ok {
          ok := WriteEnd(currentEnd, undo);
          return if ok then RolledBack else RollbackFailed;
        }
      } else {
        var ok := WriteStart(newStart, first);
        if !ok {
          return FirstFailed;
        }
        ok := WriteEnd(newEnd, second);
        if !ok {
          ok := WriteStart(currentStart, undo);
          return if ok then RolledBack else RollbackFailed;
        }
      }
      report := Finished(Range(start, end), start == newStart && end == newEnd);
    }
  }
}
