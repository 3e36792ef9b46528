/** The recorder as an object: each method moves its fields as the function on histories says. */
module HistoryStore {
  import opened Outcomes
  import opened EnergyBins
  import opened EnergyTheorems
  import opened BatteryHistory

  class HistoryStore {
    var points: seq<Point>
    var active: nat
    var last: Option<(nat, nat)>
    var current: Option<Point>
    var lastCharge: nat
    var energy: Option<EnergyHistory>

    ghost function Value(): History
      reads this
    {
      History(points, active, last, current, lastCharge, energy)
    }

    /** Times are 64-bit and the cached energy, if any, is the one of the present points. */
    ghost predicate Valid()
      reads this
    {
      Bounded(Value()) && EnergyFresh(Value())
    }

    constructor (saved: seq<Point>, charge: nat, now: nat)
      requires forall i :: 0 <= i < |saved| ==> saved[i].active <= U64_MAX
      ensures Value() == Loaded(saved, charge, now) && Valid()
      ensures points == saved[Expired(saved, now)..]
      ensures OnAxis(Value()) <==> Ordered(saved[Expired(saved, now)..])
    {
      points := saved;
      active := if saved == [] then 0 else saved[|saved| - 1].active;
      last, current, lastCharge, energy := None, None, charge, None;
      new;
      DropOld(now);
      StartOnAxis(saved, charge, now);
      PruneDropsExpired(Unpruned(saved, charge), now);
    }

    method DropOld(now: nat)
      modifies this`points, this`energy
      ensures Value() == Prune(old(Value()), now)
    {
      var cutoff := MonusNat(now, RETENTION);
      while points != [] && points[0].timestamp < cutoff
        invariant Prune(Value(), now) == Prune(old(Value()), now)
        decreases |points|
      {
        points := points[1..];
        energy := None;
      }
    }

    /** Moves the clock, and the last charge when the battery has just been unplugged. */
    method NoteReading(r: Reading)
      modifies this`active, this`last, this`lastCharge
      ensures Value() == Noted(old(Value()), r)
    {
      active := SatAdd(active, Delta(last, r.wall, r.awake).GetOr(0));
      if !r.plugged && (lastCharge == 0 || (points != [] && points[|points| - 1].plugged)) {
        lastCharge := r.wall;
      }
      last := Some((r.wall, r.awake));
    }

    method RecordReading(r: Reading) returns (sampled: bool)
      requires Valid()
      modifies this
      ensures (Value(), sampled) == Record(old(Value()), r) && Valid()
      ensures old(OnAxis(Value())) ==> OnAxis(Value())
    {
      RecordKeepsAxis(Value(), r);
      if !r.available {
        last, current := None, None;
        return false;
      }
      DropOld(r.wall);
      var continuous := Delta(last, r.wall, r.awake).Some?;
      var previous := if points == [] then None else Some(points[|points| - 1]);
      var transition := previous.Some?
        && (previous.value.plugged != r.plugged || previous.value.charging != r.charging);
      var bucketChanged := previous.None? || BucketOf(previous.value.timestamp) != BucketOf(r.wall);
      NoteReading(r);
      var point := PointOf(History(points, active, last, current, lastCharge, energy), r,
                           continuous && previous.Some?);
      sampled := !continuous || bucketChanged || transition;
      if sampled {
        energy := None;
        points := points + [point];
        DropOld(r.wall);
      }
      current := Some(point);
    }

    /** The published points and energy; the energy is computed only when it is not cached. */
    method Publish() returns (published: seq<Point>, history: EnergyHistory)
      requires Valid()
      modifies this`energy
      ensures Value() == Published(old(Value())) && Valid()
      ensures published == Rebased(points) && history == EnergyOf(Rebased(points))
    {
      published := Rebased(points);
      if energy.None? {
        RebasedBounded(points);
        DurationBounded(published, U64_MAX);
        var computed := Energy(published);
        energy := Some(computed);
      }
      history := energy.value;
    }
  }
}
