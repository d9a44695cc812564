/** The digipot that sets the motor rail, with the driver's float arithmetic over the reals.

    Vout = 0.5 (1 + 100 / (12.1 + R)), R = 200 (255 - tap) / 255 kOhm. */
module Digipot {
  import opened Words

  const R_TOP: real := 100.0
  const R_SERIES: real := 12.1
  const R_POT: real := 200.0
  const VOUT_MAX: real := 4.2
  const TAP_MAX: int := 253

  /** Output voltage at a tap (the formula of max5419_get_target_mv, in volts). */
  function Vout(tap: int): (v: real)
    requires 0 <= tap <= 255
    ensures v > 0.5
  {
    var bottom := R_SERIES + R_POT * (255 - tap) as real / 255.0;
    PositiveQuotient(R_TOP, bottom);
    0.5 * (1.0 + R_TOP / bottom)
  }

  lemma PositiveQuotient(a: real, b: real)
    requires a > 0.0 && b > 0.0
    ensures a / b > 0.0
  {
  }

  /** The unclamped wiper position for a voltage. */
  function TapPosition(v: real): real
    requires v > 0.5
  {
    255.0 - (R_TOP / (2.0 * v - 1.0) - R_SERIES) * (255.0 / R_POT)
  }

  function ClampPosition(p: real): real {
    if p < 0.0 then 0.0 else if p > TAP_MAX as real then TAP_MAX as real else p
  }

  /** The tap max5419_set_voltage asks for. */
  function TapFor(v: real): (tap: int)
    requires v > 0.5
    ensures 0 <= tap <= TAP_MAX
  {
    (ClampPosition(TapPosition(v)) + 0.5).Floor
  }

  /** max5419_set_voltage accepts a request. */
  predicate Accepted(v: real) {
    2.0 * v - 1.0 > 0.0 && v <= VOUT_MAX
  }

  // ---- the two formulas are inverse -------------------------------------------------

  lemma QuotientOfQuotient(a: real, b: real)
    requires a > 0.0 && b > 0.0
    ensures a / b > 0.0 && a / (a / b) == b
  {
    var q := a / b;
    assert q * b == a;
    assert a / q == b;
  }

  lemma PositionOfVout(tap: int)
    requires 0 <= tap <= 255
    ensures TapPosition(Vout(tap)) == tap as real
  {
    var r := R_POT * (255 - tap) as real / 255.0;
    var bottom := R_SERIES + r;
    QuotientOfQuotient(R_TOP, bottom);
    assert 2.0 * Vout(tap) - 1.0 == R_TOP / bottom;
    assert R_TOP / (2.0 * Vout(tap) - 1.0) == bottom;
    assert r * (255.0 / R_POT) == (255 - tap) as real;
  }

  /** Asking for the voltage of a tap gives that tap, for every permitted tap. */
  lemma VoltageOfTapGivesTap(tap: int)
    requires 0 <= tap <= TAP_MAX
    ensures TapFor(Vout(tap)) == tap
  {
    PositionOfVout(tap);
  }

  // ---- monotonicity and the rail limit ------------------------------------------------

  lemma QuotientShrinks(a: real, b: real, c: real)
    requires a > 0.0 && 0.0 < b <= c
    ensures a / c <= a / b
  {
    var q := a / c;
    assert q * c == a;
    PositiveQuotient(a, c);
    ProductGrows(q, b, c);
    assert q * b <= a;
    QuotientAtLeast(a, b, q);
  }

  lemma ProductGrows(q: real, b: real, c: real)
    requires q > 0.0 && b <= c
    ensures q * b <= q * c
  {
    assert q * (c - b) >= 0.0;
  }

  lemma QuotientAtLeast(a: real, b: real, q: real)
    requires b > 0.0 && q * b <= a
    ensures q <= a / b
  {
    var p := a / b;
    assert p * b == a;
    if p < q {
      assert (q - p) * b > 0.0;
    }
  }

  lemma PositionGrows(v: real, w: real)
    requires 0.5 < v <= w
    ensures TapPosition(v) <= TapPosition(w)
  {
    QuotientShrinks(R_TOP, 2.0 * v - 1.0, 2.0 * w - 1.0);
  }

  /** A higher request never gives a lower tap. */
  lemma TapGrowsWithRequest(v: real, w: real)
    requires 0.5 < v <= w
    ensures TapFor(v) <= TapFor(w)
  {
    PositionGrows(v, w);
    FloorGrows(ClampPosition(TapPosition(v)) + 0.5, ClampPosition(TapPosition(w)) + 0.5);
  }

  lemma FloorGrows(x: real, y: real)
    requires x <= y
    ensures x.Floor <= y.Floor
  {
  }

  /** A higher tap gives a higher voltage. */
  lemma VoutGrows(s: int, t: int)
    requires 0 <= s <= t <= 255
    ensures Vout(s) <= Vout(t)
  {
    QuotientShrinks(R_TOP, R_SERIES + R_POT * (255 - t) as real / 255.0, R_SERIES + R_POT * (255 - s) as real / 255.0);
  }

  lemma TopTapWithinLimit()
    ensures Vout(TAP_MAX) <= VOUT_MAX < Vout(TAP_MAX + 1)
  {
  }

  /** 253 is exactly the last tap within the rail limit, so no accepted request, and no tap
      the driver writes, puts the rail above 4.2 V. */
  lemma RailLimitIffTapLimit(tap: int)
    requires 0 <= tap <= 255
    ensures Vout(tap) <= VOUT_MAX <==> tap <= TAP_MAX
  {
    TopTapWithinLimit();
    if tap <= TAP_MAX {
      VoutGrows(tap, TAP_MAX);
    } else {
      VoutGrows(TAP_MAX + 1, tap);
    }
  }

  lemma NoAcceptedRequestExceedsTheRail(v: real)
    requires Accepted(v)
    ensures Vout(TapFor(v)) <= VOUT_MAX
  {
    RailLimitIffTapLimit(TapFor(v));
  }

  /** Inside the adjustable range the chosen tap is the nearest one to the exact position. */
  lemma TapIsNearest(v: real)
    requires Accepted(v) && TapPosition(v) >= 0.0
    ensures -0.5 <= TapFor(v) as real - TapPosition(v) <= 0.5
  {
    PositionAtLimit();
    PositionGrows(v, VOUT_MAX);
  }

  lemma PositionAtLimit()
    ensures 253.0 < TapPosition(VOUT_MAX) < 253.5
  {
  }

  // ---- the ramp -----------------------------------------------------------------------

  /** The taps a ramp writes going from one tap to another, one step at a time. */
  function RampPath(from: int, to: int): (path: seq<int>)
    ensures |path| == if from <= to then to - from else from - to
    decreases if from <= to then to - from else from - to
  {
    if from == to then []
    else
      var next := if to > from then from + 1 else from - 1;
      [next] + RampPath(next, to)
  }

  /** Every write of a ramp moves one tap and stays between start and goal. */
  lemma RampPathSteps(from: int, to: int, k: nat)
    requires k < |RampPath(from, to)|
    ensures RampPath(from, to)[k] == if to > from then from + k + 1 else from - k - 1
    decreases k
  {
    if k > 0 {
      RampPathSteps(if to > from then from + 1 else from - 1, to, k - 1);
    }
  }

  datatype Outcome = Done | Rejected | BusError

  class Max5419 {
    var curTap: int                   // -1 until the first write
    ghost var written: seq<int>       // taps the chip has taken, in order

    ghost predicate Valid()
      reads this
    {
      -1 <= curTap <= TAP_MAX && (written != [] ==> written[|written| - 1] == curTap) && (written == [] <==> curTap == -1)
    }

    constructor ()
      ensures Valid() && curTap == -1 && written == []
    {
      curTap, written := -1, [];
    }

    /** max5419_set_tap; `acks` are the bus results of the write and of its one retry. */
    method SetTap(tap: nat, acks: (bool, bool)) returns (r: Outcome)
      requires Valid() && tap <= 255
      modifies this
      ensures Valid()
      ensures r == (if tap > TAP_MAX then Rejected else if acks.0 || acks.1 then Done else BusError)
      ensures r == Done ==> curTap == tap && written == old(written) + [tap]
      ensures r != Done ==> curTap == old(curTap) && written == old(written)
    {
      if tap > TAP_MAX {
        return Rejected;
      }
      if !acks.0 && !acks.1 {
        return BusError;
      }
      curTap := tap;
      written := written + [tap];
      r := Done;
    }

    /** ramp_to_tap; the k-th set_tap call sees the bus results acks(k). */
    method RampToTap(tap: nat, acks: nat -> (bool, bool)) returns (r: Outcome)
      requires Valid() && tap <= TAP_MAX
      modifies this
      ensures Valid() && r != Rejected
      ensures r == Done ==> curTap == tap
      ensures old(curTap) < 0 ==> written == old(written) + if r == Done then [tap] else []
      ensures old(curTap) >= 0 ==> exists n: nat ::
        && n <= |RampPath(old(curTap), tap)| && written == old(written) + RampPath(old(curTap), tap)[..n]
        && (r == Done <==> n == |RampPath(old(curTap), tap)|)
      ensures (forall k :: acks(k).0 || acks(k).1) ==> r == Done
    {
      if curTap < 0 {
        r := SetTap(tap, acks(0));
        return;
      }
      ghost var start, path := curTap, RampPath(curTap, tap);
      var n: nat := 0;
      while curTap != tap
        invariant Valid() && 0 <= curTap <= TAP_MAX && n <= |path|
        invariant written == old(written) + path[..n]
        invariant RampPath(curTap, tap) == path[n..]
        decreases |path| - n
      {
        var next := if tap > curTap then curTap + 1 else curTap - 1;
        assert path[n..] == [next] + RampPath(next, tap);
        assert path[n..][0] == path[n] && path[n..][1..] == path[n + 1..];
        r := SetTap(next, acks(n));
        if r != Done {
          return;
        }
        assert path[..n + 1] == path[..n] + [next];
        n := n + 1;
      }
      assert n == |path|;
      return Done;
    }

    /** max5419_set_voltage. */
    method SetVoltage(v: real, acks: nat -> (bool, bool)) returns (r: Outcome)
      requires Valid()
      modifies this
      ensures Valid()
      ensures r == Rejected <==> !Accepted(v)
      ensures r == Rejected ==> written == old(written) && curTap == old(curTap)
      ensures r == Done ==> v > 0.5 && curTap == TapFor(v) && Vout(curTap) <= VOUT_MAX
      ensures Accepted(v) && (forall k :: acks(k).0 || acks(k).1) ==> r == Done
    {
      if 2.0 * v - 1.0 <= 0.0 {
        return Rejected;
      }
      if v > VOUT_MAX {
        return Rejected;
      }
      var position := TapPosition(v);
      if position < 0.0 {
        position := 0.0;
      } else if position > TAP_MAX as real {
        position := TAP_MAX as real;
      }
      var tap := (position + 0.5).Floor;
      r := RampToTap(tap, acks);
      if r == Done {
        NoAcceptedRequestExceedsTheRail(v);
      }
    }
  }
}
