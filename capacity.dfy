/** The capacity integrator `calc_Q`: cumulative charge (or discharge)
    capacity in Ah over one cycle's current (A) and time (s) samples, using the
    current at the right end of each interval. */
module Integrator {

  /** The amount added to the running capacity at sample `i` (for `i >= 1`):
      `I[i]·Δt/3600` for a charging current when integrating charge,
      `−I[i]·Δt/3600` for a discharging current when integrating discharge,
      and nothing otherwise. */
  function Gain(I: seq<real>, t: seq<real>, isCharge: bool, i: nat): (g: real)
    requires 1 <= i < |I| <= |t|
    ensures g != 0.0 ==> (isCharge && I[i] > 0.0) || (!isCharge && I[i] < 0.0)
    ensures t[i - 1] <= t[i] ==> g >= 0.0
  {
    var dt := t[i] - t[i - 1];
    if isCharge && I[i] > 0.0 then
      assert dt >= 0.0 ==> I[i] * dt >= 0.0;
      I[i] * dt / 3600.0
    else if !isCharge && I[i] < 0.0 then
      assert dt >= 0.0 ==> -I[i] * dt >= 0.0;
      -I[i] * dt / 3600.0
    else 0.0
  }

  /** The capacity array `calc_Q` returns, as a function of its inputs:
      zero at the first sample, then each entry is the previous one plus the
      gain at that sample. */
  function Capacity(I: seq<real>, t: seq<real>, isCharge: bool): (Q: seq<real>)
    requires |I| <= |t|
    ensures |Q| == |I|
    ensures |Q| > 0 ==> Q[0] == 0.0
    decreases |I|
  {
    if |I| <= 1 then seq(|I|, _ => 0.0)
    else
      var prev := Capacity(I[..|I| - 1], t, isCharge);
      prev + [prev[|I| - 2] + Gain(I, t, isCharge, |I| - 1)]
  }

  /** The capacity of a prefix of the samples is the prefix of the capacity. */
  lemma {:induction false} CapacityPrefix(I: seq<real>, t: seq<real>, isCharge: bool, k: nat)
    requires k <= |I| <= |t|
    ensures Capacity(I[..k], t, isCharge) == Capacity(I, t, isCharge)[..k]
    decreases |I|
  {
    if k < |I| && |I| > 1 {
      var init := I[..|I| - 1];
      CapacityPrefix(init, t, isCharge, k);
      assert init[..k] == I[..k];
    } else if k == |I| {
      assert I[..k] == I;
    }
  }

  /** Integrating one more sample appends the previous capacity plus the
      gain at that sample. */
  lemma CapacitySnoc(I: seq<real>, t: seq<real>, isCharge: bool, i: nat)
    requires 1 <= i < |I| <= |t|
    ensures Capacity(I[..i + 1], t, isCharge) ==
            Capacity(I[..i], t, isCharge) + [Capacity(I[..i], t, isCharge)[i - 1] + Gain(I, t, isCharge, i)]
  {
    var pre := I[..i + 1];
    assert pre[..|pre| - 1] == I[..i];
    assert Gain(pre, t, isCharge, i) == Gain(I, t, isCharge, i);
  }

  /** Entry `i` of the capacity is entry `i-1` plus the gain at sample `i`. */
  lemma CapacityStep(I: seq<real>, t: seq<real>, isCharge: bool, i: nat)
    requires 1 <= i < |I| <= |t|
    ensures Capacity(I, t, isCharge)[i] == Capacity(I, t, isCharge)[i - 1] + Gain(I, t, isCharge, i)
  {
    CapacityPrefix(I, t, isCharge, i + 1);
    CapacityPrefix(I, t, isCharge, i);
    CapacitySnoc(I, t, isCharge, i);
  }

  /** Capacity changes only at a sample carrying current of the selected
      sign: charge where `I[i] > 0`, discharge where `I[i] < 0`. */
  lemma CapacityChangesOnlyOnSign(I: seq<real>, t: seq<real>, isCharge: bool, i: nat)
    requires 1 <= i < |I| <= |t|
    requires Capacity(I, t, isCharge)[i] != Capacity(I, t, isCharge)[i - 1]
    ensures if isCharge then I[i] > 0.0 else I[i] < 0.0
  {
    CapacityStep(I, t, isCharge, i);
  }

  ghost predicate NonDecreasing(s: seq<real>)
  {
    forall i, j :: 0 <= i <= j < |s| ==> s[i] <= s[j]
  }

  /** With non-decreasing sample times the capacity never decreases, for
      both charge and discharge. */
  lemma {:induction false} CapacityMonotone(I: seq<real>, t: seq<real>, isCharge: bool)
    requires |I| <= |t|
    requires NonDecreasing(t)
    ensures NonDecreasing(Capacity(I, t, isCharge))
    decreases |I|
  {
    if |I| > 1 {
      var init := I[..|I| - 1];
      CapacityMonotone(init, t, isCharge);
      CapacityStep(I, t, isCharge, |I| - 1);
      CapacityPrefix(I, t, isCharge, |I| - 1);
    }
  }

  /** With non-decreasing sample times every capacity entry is at least zero. */
  lemma CapacityNonNegative(I: seq<real>, t: seq<real>, isCharge: bool)
    requires |I| <= |t|
    requires NonDecreasing(t)
    ensures forall i :: 0 <= i < |I| ==> Capacity(I, t, isCharge)[i] >= 0.0
  {
    CapacityMonotone(I, t, isCharge);
  }

  /** A cycle without current of the selected sign at any sample after the
      first has an all-zero capacity. */
  lemma {:induction false} CapacityAllZero(I: seq<real>, t: seq<real>, isCharge: bool)
    requires |I| <= |t|
    requires forall i :: 1 <= i < |I| ==> if isCharge then I[i] <= 0.0 else I[i] >= 0.0
    ensures forall i :: 0 <= i < |I| ==> Capacity(I, t, isCharge)[i] == 0.0
    decreases |I|
  {
    if |I| > 1 {
      var init := I[..|I| - 1];
      CapacityAllZero(init, t, isCharge);
      CapacityPrefix(I, t, isCharge, |I| - 1);
      CapacityStep(I, t, isCharge, |I| - 1);
    }
  }

  /** The worked example of one cycle sampled at t = 0, 1, 2 s with currents
      0, 2, −3 A: charge [0, 2/3600, 2/3600], discharge [0, 0, 3/3600]. */
  lemma ThreeSampleCycle()
    ensures Capacity([0.0, 2.0, -3.0], [0.0, 1.0, 2.0], true) == [0.0, 2.0 / 3600.0, 2.0 / 3600.0]
    ensures Capacity([0.0, 2.0, -3.0], [0.0, 1.0, 2.0], false) == [0.0, 0.0, 3.0 / 3600.0]
  {
    var I, t := [0.0, 2.0, -3.0], [0.0, 1.0, 2.0];
    assert I[..2] == [0.0, 2.0];
    assert I[..2][..1] == [0.0];
  }

  /** `calc_Q`: fills a zeroed array index by index. */
  method CalcQ(I: seq<real>, t: seq<real>, isCharge: bool) returns (Q: array<real>)
    requires |I| <= |t|
    ensures Q[..] == Capacity(I, t, isCharge)
  {
    Q := new real[|I|](_ => 0.0);
    if |I| == 0 {
      return;
    }
    assert I[..1] == [I[0]];
    var i := 1;
    while i < |I|
      invariant 1 <= i <= |I|
      invariant Q.Length == |I|
      invariant Q[..i] == Capacity(I[..i], t, isCharge)
    {
      ghost var before := Q[..i];
      if isCharge && I[i] > 0.0 {
        Q[i] := Q[i - 1] + I[i] * (t[i] - t[i - 1]) / 3600.0;
      } else if !isCharge && I[i] < 0.0 {
        Q[i] := Q[i - 1] - I[i] * (t[i] - t[i - 1]) / 3600.0;
      } else {
        Q[i] := Q[i - 1];
      }
      assert Q[..i] == before;
      assert Q[i] == before[i - 1] + Gain(I, t, isCharge, i);
      assert Q[..i + 1] == before + [Q[i]];
      CapacitySnoc(I, t, isCharge, i);
      i := i + 1;
    }
    assert I[..i] == I;
    assert Q[..] == Q[..i];
  }
}
