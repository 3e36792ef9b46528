/** Backlight percentages: rounding to device units and back, and runs of adjustments. */
module Brightness {
  import opened Outcomes

  function Percent(raw: nat, maximum: nat): nat {
    if maximum == 0 then 0
    else Min((raw * 100 + maximum / 2) / maximum, 100)
  }

  /** The rounded value is cut to 64 bits before it is clamped. */
  function Raw(maximum: nat, percent: nat): nat {
    if maximum == 0 then 0
    else Clamp((maximum * percent + 50) / 100 % (U64_MAX + 1), 1, maximum)
  }

  predicate InRange(percent: int) {
    1 <= percent <= 100
  }

  // ---------------------------------------------------------------- rounding

  function Units(maximum: nat, percent: nat): nat {
    (maximum * percent + 50) / 100
  }

  lemma {:induction false} Scale(a: nat, b: nat, c: nat)
    requires a <= b
    ensures c * a <= c * b
  {}

  lemma {:induction false} HalfUp(product: nat, maximum: nat)
    requires product <= 100 * maximum
    ensures var units := (product + 50) / 100;
            units <= maximum && product - 49 <= 100 * units <= product + 50
  {}

  /** Rounding loses at most half a unit, so nothing is cut, and nothing is clamped above. */
  lemma {:induction false} RawRounds(maximum: nat, p: nat)
    requires 1 <= maximum <= U64_MAX && InRange(p)
    ensures var units := Units(maximum, p);
            && units <= maximum && Raw(maximum, p) == Max(1, units)
            && maximum * p - 49 <= 100 * units <= maximum * p + 50
  {
    Scale(p, 100, maximum);
    HalfUp(maximum * p, maximum);
    NotCut(Units(maximum, p));
  }

  lemma {:induction false} NotCut(n: nat)
    requires n <= U64_MAX
    ensures n % (U64_MAX + 1) == n
  {}

  lemma {:induction false} Quotient(a: nat, b: nat, q: nat)
    requires b > 0 && b * q <= a < b * q + b
    ensures a / b == q
  {
    var other := a / b;
    assert b * other <= a < b * other + b;
    if other < q {
      Scale(other + 1, q, b);
    } else if other > q {
      Scale(q + 1, other, b);
    }
  }

  lemma {:induction false} RoundTripAbove(maximum: nat, p: nat)
    requires 100 <= maximum <= U64_MAX && InRange(p)
    ensures Percent(Raw(maximum, p), maximum) == p
  {
    RawRounds(maximum, p);
    Scale(1, p, maximum);
    var units := Units(maximum, p);
    var scaled := units * 100 + maximum / 2;
    if maximum == 100 {
      assert units == p;
    }
    assert maximum * p <= scaled < maximum * p + maximum;
    Quotient(scaled, maximum, p);
  }

  /** The percentage shown is the nearest one, the upper of two, and at most 100. */
  lemma {:induction false} PercentNearest(raw: nat, maximum: nat)
    requires 1 <= maximum && raw <= maximum
    ensures Percent(raw, maximum) <= 100
    ensures var p := Percent(raw, maximum);
      2 * maximum * p <= 200 * raw + maximum && 200 * raw < 2 * maximum * p + maximum + 1
  {
    var scaled := raw * 100 + maximum / 2;
    var q := scaled / maximum;
    assert maximum * q <= scaled < maximum * q + maximum;
    assert scaled <= 100 * maximum + maximum / 2;
    if q > 100 {
      Scale(101, q, maximum);
    }
    assert Percent(raw, maximum) == q;
    assert 2 * maximum * q == 2 * (maximum * q);
  }

  lemma {:induction false} RawMonotone(maximum: nat, p: nat, q: nat)
    requires 1 <= maximum <= U64_MAX && InRange(p) && InRange(q) && p <= q
    ensures Raw(maximum, p) <= Raw(maximum, q)
  {
    RawRounds(maximum, p);
    RawRounds(maximum, q);
    Scale(p, q, maximum);
  }

  /** A round trip at every percentage needs a device unit for each of them. */
  lemma {:induction false} EnoughUnits(maximum: nat, p: nat)
    requires 1 <= maximum <= U64_MAX && InRange(p)
    requires forall q :: InRange(q) ==> Percent(Raw(maximum, q), maximum) == q
    ensures p <= Raw(maximum, p)
  {
    if p > 1 {
      EnoughUnits(maximum, p - 1);
      RawMonotone(maximum, p - 1, p);
      assert Percent(Raw(maximum, p), maximum) != Percent(Raw(maximum, p - 1), maximum);
    }
  }

  /** Every percentage survives the device exactly when it has at least a hundred steps. */
  lemma {:induction false} RoundTripExactly(maximum: nat)
    requires 1 <= maximum <= U64_MAX
    ensures (forall p :: InRange(p) ==> Percent(Raw(maximum, p), maximum) == p) <==> maximum >= 100
  {
    if maximum >= 100 {
      forall p | InRange(p) ensures Percent(Raw(maximum, p), maximum) == p {
        RoundTripAbove(maximum, p);
      }
    } else if forall p :: InRange(p) ==> Percent(Raw(maximum, p), maximum) == p {
      EnoughUnits(maximum, 100);
    }
  }

  // ---------------------------------------------------------------- runs

  datatype Request = Adjust(delta: int) | Set(percent: int)

  /** `None` refuses the request. */
  function Target(current: nat, r: Request): Option<nat> {
    match r
    case Adjust(delta) => Some(Clamp(current + delta, 1, 100))
    case Set(percent) => if InRange(percent) then Some(percent) else None
  }

  /** The device value after a request whose write succeeds. */
  function Apply(maximum: nat, raw: nat, r: Request): nat {
    match Target(Percent(raw, maximum), r)
    case None => raw
    case Some(p) => Raw(maximum, p)
  }

  function Run(maximum: nat, raw: nat, requests: seq<Request>): nat {
    if requests == [] then raw
    else Apply(maximum, Run(maximum, raw, requests[..|requests| - 1]), requests[|requests| - 1])
  }

  /** The same requests on exact percentages, without any device. */
  function Ideal(current: nat, requests: seq<Request>): nat {
    if requests == [] then current
    else
      var before := Ideal(current, requests[..|requests| - 1]);
      Target(before, requests[|requests| - 1]).GetOr(before)
  }

  /** No sequence of requests drifts from the exact percentages. */
  lemma {:induction false} NoDrift(maximum: nat, raw: nat, requests: seq<Request>)
    requires 100 <= maximum <= U64_MAX
    ensures Percent(Run(maximum, raw, requests), maximum) == Ideal(Percent(raw, maximum), requests)
  {
    if requests != [] {
      var front, r := requests[..|requests| - 1], requests[|requests| - 1];
      NoDrift(maximum, raw, front);
      var target := Target(Percent(Run(maximum, raw, front), maximum), r);
      if target.Some? {
        RoundTripAbove(maximum, target.value);
      }
    }
  }

  /** Below a hundred steps some single adjustment misses its percentage, from any start. */
  lemma {:induction false} DriftBelow(maximum: nat, raw: nat) returns (delta: int)
    requires 1 <= maximum < 100
    ensures Percent(Run(maximum, raw, [Adjust(delta)]), maximum) != Ideal(Percent(raw, maximum), [Adjust(delta)])
  {
    RoundTripExactly(maximum);
    var p :| InRange(p) && Percent(Raw(maximum, p), maximum) != p;
    delta := p - Percent(raw, maximum);
    assert [Adjust(delta)][..0] == [];
    assert Clamp(p, 1, 100) == p;
  }

  function Repeat(r: Request, n: nat): (rs: seq<Request>)
    ensures |rs| == n
  {
    if n == 0 then [] else Repeat(r, n - 1) + [r]
  }

  lemma {:induction false} OneStepStuck()
    ensures Apply(10, 5, Adjust(1)) == 5
  {}

  /** With ten steps, raising by one percent never moves the backlight. */
  lemma {:induction false} StuckAtFive(n: nat)
    ensures Run(10, 5, Repeat(Adjust(1), n)) == 5
  {
    if n > 0 {
      StuckAtFive(n - 1);
      var all := Repeat(Adjust(1), n);
      assert all[..n - 1] == Repeat(Adjust(1), n - 1);
      OneStepStuck();
    }
  }

  /** A write takes effect and is read back, takes effect without a readback, or fails leaving anything. */
  datatype WriteOutcome = Shown | Unshown | Failed(left: nat)

  /** The device under the service's lock: read, write, read back. */
  class Backlight {
    const maximum: nat
    var raw: nat

    predicate Valid()
      reads this
    {
      1 <= maximum <= U64_MAX
    }

    constructor (maximum: nat, raw: nat)
      requires 1 <= maximum <= U64_MAX
      ensures Valid() && this.maximum == maximum && this.raw == raw
    {
      this.maximum, this.raw := maximum, raw;
    }

    /** Only a value that was read back is shown. */
    method Write(percent: nat, outcome: WriteOutcome) returns (shown: Option<nat>)
      requires Valid() && InRange(percent)
      modifies this
      ensures raw == if outcome.Failed? then outcome.left else Raw(maximum, percent)
      ensures shown == if outcome.Shown? then Some(Percent(raw, maximum)) else None
      ensures outcome.Shown? && maximum >= 100 ==> shown == Some(percent)
    {
      if maximum >= 100 {
        RoundTripAbove(maximum, percent);
      }
      if outcome.Failed? {
        raw := outcome.left;
        return None;
      }
      raw := Raw(maximum, percent);
      shown := if outcome.Shown? then Some(Percent(raw, maximum)) else None;
    }

    method AdjustBy(delta: int, outcome: WriteOutcome) returns (shown: Option<nat>)
      requires Valid()
      modifies this
      ensures raw == if outcome.Failed? then outcome.left else Apply(maximum, old(raw), Adjust(delta))
      ensures shown.Some? <==> outcome.Shown?
      ensures outcome.Shown? && maximum >= 100 ==>
        shown == Some(Clamp(Percent(old(raw), maximum) + delta, 1, 100))
    {
      var current := Percent(raw, maximum);
      shown := Write(Clamp(current + delta, 1, 100), outcome);
    }

    method SetTo(percent: nat, outcome: WriteOutcome) returns (shown: Option<nat>)
      requires Valid()
      modifies this
      ensures raw == if InRange(percent) && outcome.Failed? then outcome.left
                     else Apply(maximum, old(raw), Set(percent))
      ensures shown.Some? <==> outcome.Shown? && 1 <= percent <= 100
      ensures shown.Some? && maximum >= 100 ==> shown == Some(percent)
    {
      if !InRange(percent) {
        return None;
      }
      shown := Write(percent, outcome);
    }
  }
}
