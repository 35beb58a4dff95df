/** `organize_cycle_index`: relabels the time-ordered raw cycle labels in
    place, using each raw label only to detect where a new cycle starts. The
    counter starts at the first raw label and goes up by one at every change. */
module CycleIndex {

  /** 1 when the raw label changes at position `i`, else 0. */
  function Bump(a: seq<int>, i: nat): int
    requires 1 <= i < |a|
  {
    if a[i] != a[i - 1] then 1 else 0
  }

  /** The relabelled array, as a function of the raw labels. */
  function Organized(a: seq<int>): (r: seq<int>)
    requires |a| > 0
    ensures |r| == |a|
    ensures r[0] == a[0]
    decreases |a|
  {
    if |a| == 1 then a
    else
      var prev := Organized(a[..|a| - 1]);
      prev + [prev[|a| - 2] + Bump(a, |a| - 1)]
  }

  /** Number of positions at which the raw label differs from the previous one. */
  function Changes(a: seq<int>): nat
  {
    if |a| <= 1 then 0 else Changes(a[..|a| - 1]) + Bump(a, |a| - 1)
  }

  lemma {:induction false} OrganizedPrefix(a: seq<int>, k: nat)
    requires 1 <= k <= |a|
    ensures Organized(a[..k]) == Organized(a)[..k]
    decreases |a|
  {
    if k < |a| {
      var init := a[..|a| - 1];
      OrganizedPrefix(init, k);
      assert init[..k] == a[..k];
    } else {
      assert a[..k] == a;
    }
  }

  /** Relabelling one more raw label appends the previous output plus the
      bump at that position. */
  lemma OrganizedSnoc(a: seq<int>, i: nat)
    requires 1 <= i < |a|
    ensures Organized(a[..i + 1]) == Organized(a[..i]) + [Organized(a[..i])[i - 1] + Bump(a, i)]
  {
    var pre := a[..i + 1];
    assert pre[..|pre| - 1] == a[..i];
  }

  /** Each later position is the previous output plus one exactly when the
      raw label changed there, and the previous output otherwise. */
  lemma OrganizedStep(a: seq<int>, i: nat)
    requires 1 <= i < |a|
    ensures Organized(a)[i] == Organized(a)[i - 1] + (if a[i] != a[i - 1] then 1 else 0)
  {
    OrganizedPrefix(a, i + 1);
    OrganizedPrefix(a, i);
    OrganizedSnoc(a, i);
  }

  /** The output never decreases. */
  lemma OrganizedMonotone(a: seq<int>)
    requires |a| > 0
    ensures forall i, j :: 0 <= i <= j < |a| ==> Organized(a)[i] <= Organized(a)[j]
  {
    var r := Organized(a);
    forall i, j | 0 <= i <= j < |a|
      ensures r[i] <= r[j]
    {
      var k := i;
      while k < j
        invariant i <= k <= j
        invariant r[i] <= r[k]
      {
        OrganizedStep(a, k + 1);
        k := k + 1;
      }
    }
  }

  /** Position `i` holds the first raw label plus the number of changes up to `i`. */
  lemma {:induction false} OrganizedCounts(a: seq<int>, i: nat)
    requires i < |a|
    ensures Organized(a)[i] == a[0] + Changes(a[..i + 1])
  {
    if i > 0 {
      OrganizedCounts(a, i - 1);
      OrganizedStep(a, i);
      var pre := a[..i + 1];
      assert pre[..|pre| - 1] == a[..i];
    }
  }

  /** The last label is the first raw label plus the number of label changes. */
  lemma OrganizedLast(a: seq<int>)
    requires |a| > 0
    ensures Organized(a)[|a| - 1] == a[0] + Changes(a)
  {
    OrganizedCounts(a, |a| - 1);
    assert a[..|a|] == a;
  }

  /** A constant labelling is returned unchanged. */
  lemma {:induction false} OrganizedConstant(a: seq<int>)
    requires |a| > 0
    requires forall i :: 0 <= i < |a| ==> a[i] == a[0]
    ensures Organized(a) == a
    decreases |a|
  {
    if |a| > 1 {
      var init := a[..|a| - 1];
      OrganizedConstant(init);
      assert init + [a[|a| - 1]] == a;
    }
  }

  /** Relabelling changes at exactly the positions where the raw label changes. */
  lemma OrganizedSameChanges(a: seq<int>, i: nat)
    requires 1 <= i < |a|
    ensures (Organized(a)[i] != Organized(a)[i - 1]) == (a[i] != a[i - 1])
  {
    OrganizedStep(a, i);
  }

  /** Relabelling is idempotent. */
  lemma {:induction false} OrganizedIdempotent(a: seq<int>)
    requires |a| > 0
    ensures Organized(Organized(a)) == Organized(a)
    decreases |a|
  {
    if |a| > 1 {
      var n := |a|;
      var r := Organized(a);
      var init := a[..n - 1];
      OrganizedIdempotent(init);
      OrganizedPrefix(a, n - 1);
      assert r[..n - 1] == Organized(init);
      OrganizedSameChanges(a, n - 1);
      assert Bump(r, n - 1) == Bump(a, n - 1);
      calc {
        Organized(r);
        Organized(r[..n - 1]) + [Organized(r[..n - 1])[n - 2] + Bump(r, n - 1)];
        Organized(init) + [Organized(init)[n - 2] + Bump(a, n - 1)];
        r;
      }
    }
  }

  /** The instrument-reset example: [5,5,5,5,5,5,2,2,2] becomes [5,5,5,5,5,5,6,6,6]. */
  lemma ResetExample()
    ensures Organized([5, 5, 5, 5, 5, 5, 2, 2, 2]) == [5, 5, 5, 5, 5, 5, 6, 6, 6]
  {
    var a := [5, 5, 5, 5, 5, 5, 2, 2, 2];
    var r := Organized(a);
    OrganizedConstant(a[..6]);
    OrganizedPrefix(a, 6);
    assert a[..6] == [5, 5, 5, 5, 5, 5];
    OrganizedStep(a, 6);
    OrganizedStep(a, 7);
    OrganizedStep(a, 8);
  }

  /** `organize_cycle_index`: overwrites the labels in place. `prev` is always
      the original label just before position `i`, `current` the last label
      written. */
  method OrganizeCycleIndex(a: array<int>)
    requires a.Length > 0
    modifies a
    ensures a[..] == Organized(old(a[..]))
  {
    ghost var orig := a[..];
    var current, prev := a[0], a[0];
    var i := 1;
    while i < a.Length
      invariant 1 <= i <= a.Length
      invariant a[..i] == Organized(orig[..i])
      invariant a[i..] == orig[i..]
      invariant current == a[i - 1] && prev == orig[i - 1]
    {
      ghost var before := a[..i];
      if a[i] != prev {
        current := current + 1;
        prev := a[i];
      }
      a[i] := current;
      assert a[..i] == before;
      assert a[i] == before[i - 1] + Bump(orig, i);
      assert a[..i + 1] == before + [a[i]];
      OrganizedSnoc(orig, i);
      i := i + 1;
    }
    assert orig[..i] == orig;
  }
}
