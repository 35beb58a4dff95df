/** Outlier cleaning and nominal capacity (lines 66-130 of
    `SDUPreprocessor.process`), and the per-battery pipeline that joins
    relabelling, assembly, cleaning and the nominal-capacity estimate. */
module Cleaning {
  import opened Stats
  import opened Integrator
  import opened CycleIndex
  import opened Assembly
  import opened MedianFilter

  /** Peak discharge capacity of one cycle: its maximum, or 0.0 for an empty list. */
  function Peak(d: seq<real>): (p: real)
    ensures |d| == 0 ==> p == 0.0
    ensures |d| > 0 ==> p in d && forall i :: 0 <= i < |d| ==> d[i] <= p
  {
    if |d| > 0 then Max(d) else 0.0
  }

  /** For a capacity that never decreases, the peak is its last entry. */
  lemma PeakOfMonotone(d: seq<real>)
    requires |d| > 0 && NonDecreasing(d)
    ensures Peak(d) == d[|d| - 1]
  {
    assert d[|d| - 1] <= Peak(d);
  }

  /** With non-decreasing sample times a cycle's peak discharge capacity is
      its final discharge capacity, and is not negative. */
  lemma PeakDischarge(seg: seq<Sample>)
    requires |seg| > 0
    requires NonDecreasing(Times(seg))
    ensures Peak(Capacity(Currents(seg), Times(seg), false)) ==
            Capacity(Currents(seg), Times(seg), false)[|seg| - 1] >= 0.0
  {
    var d := Capacity(Currents(seg), Times(seg), false);
    CapacityMonotone(Currents(seg), Times(seg), false);
    PeakOfMonotone(d);
  }

  /** The per-cycle peak discharge series (the loop building `Qd`). */
  method PeakSeries(cycles: seq<CycleRecord>) returns (Qd: seq<real>)
    ensures |Qd| == |cycles|
    ensures forall i :: 0 <= i < |cycles| ==> Qd[i] == Peak(cycles[i].discharge)
  {
    Qd := [];
    for i := 0 to |cycles|
      invariant |Qd| == i
      invariant forall j :: 0 <= j < i ==> Qd[j] == Peak(cycles[j].discharge)
    {
      if |cycles[i].discharge| > 0 {
        Qd := Qd + [Max(cycles[i].discharge)];
      } else {
        Qd := Qd + [0.0];
      }
    }
  }

  /** The median-filter window: 21 for at least 21 cycles, otherwise
      `min(n, 5)`. It is even, which the filter rejects, exactly for 2 and 4 cycles. */
  function KernelSize(n: nat): (k: nat)
    requires n >= 1
    ensures 1 <= k <= n && k <= 21
    ensures k % 2 == 0 <==> n == 2 || n == 4
    ensures n >= 21 ==> k == 21
  {
    if n >= 21 then 21 else Min(n, 5)
  }

  /** `abs(Qd - Qd_med)`, element by element. */
  function Deviations(Qd: seq<real>, Qmed: seq<real>): (dev: seq<real>)
    requires |Qmed| == |Qd|
    ensures |dev| == |Qd|
    ensures forall i :: 0 <= i < |Qd| ==> dev[i] >= 0.0 && (dev[i] == 0.0 <==> Qd[i] == Qmed[i])
  {
    seq(|Qd|, i requires 0 <= i < |Qd| => Abs(Qd[i] - Qmed[i]))
  }

  /** The single global threshold `ths`: the median of the deviations,
      which is never negative. */
  function Threshold(Qd: seq<real>, Qmed: seq<real>): (ths: real)
    requires |Qmed| == |Qd| > 0
    ensures ths >= 0.0
  {
    var dev := Deviations(Qd, Qmed);
    MedianBounds(dev, 0.0, Max(dev));
    Median(dev)
  }

  /** `should_keep`: the strict deviation test against three times the
      threshold. A threshold of zero or less rejects every cycle, and a cycle
      equal to its filtered value passes exactly when the threshold is positive. */
  function ShouldKeep(Qd: seq<real>, Qmed: seq<real>, ths: real): (keep: seq<bool>)
    requires |Qmed| == |Qd|
    ensures |keep| == |Qd|
    ensures forall i :: 0 <= i < |Qd| ==> (keep[i] <==> Deviations(Qd, Qmed)[i] < 3.0 * ths)
    ensures ths <= 0.0 ==> forall i :: 0 <= i < |Qd| ==> !keep[i]
    ensures forall i :: 0 <= i < |Qd| && Qd[i] == Qmed[i] ==> (keep[i] <==> ths > 0.0)
  {
    seq(|Qd|, i requires 0 <= i < |Qd| => Abs(Qd[i] - Qmed[i]) < 3.0 * ths)
  }

  /** The indices below `n` of the cycles that pass the deviation test and
      have a peak above 0.1, in increasing order. */
  function Kept(Qd: seq<real>, keep: seq<bool>, n: nat): (idx: seq<nat>)
    requires n <= |Qd| == |keep|
    ensures forall j :: 0 <= j < |idx| ==> idx[j] < n && keep[idx[j]] && Qd[idx[j]] > 0.1
    ensures forall j1, j2 :: 0 <= j1 < j2 < |idx| ==> idx[j1] < idx[j2]
    decreases n
  {
    if n == 0 then []
    else
      var prev := Kept(Qd, keep, n - 1);
      if keep[n - 1] && Qd[n - 1] > 0.1 then prev + [n - 1] else prev
  }

  /** A cycle below `n` is kept exactly when it passes the deviation test and
      its peak exceeds 0.1. */
  lemma {:induction false} KeptExactly(Qd: seq<real>, keep: seq<bool>, n: nat, i: nat)
    requires n <= |Qd| == |keep|
    ensures i in Kept(Qd, keep, n) <==> i < n && keep[i] && Qd[i] > 0.1
  {
    if n > 0 {
      KeptExactly(Qd, keep, n - 1, i);
    }
  }

  /** The cleaning loop: each surviving cycle, in order, is renumbered
      1, 2, ... in place and collected; the other cycles keep their numbers. */
  method SelectClean(cycles: seq<CycleRecord>, Qd: seq<real>, keep: seq<bool>)
    returns (clean: seq<CycleRecord>)
    requires |Qd| == |keep| == |cycles| && Distinct(cycles)
    modifies cycles
    ensures |clean| == |Kept(Qd, keep, |cycles|)|
    ensures forall j :: 0 <= j < |clean| ==>
      clean[j] == cycles[Kept(Qd, keep, |cycles|)[j]] && clean[j].number == j + 1
    ensures forall i :: 0 <= i < |cycles| && !(keep[i] && Qd[i] > 0.1) ==>
      cycles[i].number == old(cycles[i].number)
  {
    clean := [];
    var index := 0;
    for i := 0 to |cycles|
      invariant index == |clean| == |Kept(Qd, keep, i)|
      invariant forall j :: 0 <= j < index ==>
        clean[j] == cycles[Kept(Qd, keep, i)[j]] && clean[j].number == j + 1
      invariant forall m :: 0 <= m < |cycles| && (m >= i || !(keep[m] && Qd[m] > 0.1)) ==>
        cycles[m].number == old(cycles[m].number)
    {
      ghost var before := Kept(Qd, keep, i);
      if keep[i] && Qd[i] > 0.1 {
        NotYetCollected(cycles, clean, before, i);
        index := index + 1;
        cycles[i].number := index;
        clean := clean + [cycles[i]];
      }
      assert Kept(Qd, keep, i + 1) == if keep[i] && Qd[i] > 0.1 then before + [i] else before;
    }
  }

  /** The records collected so far are those at indices below `i`, so
      none of them is the record at `i`, and neither is any other record. */
  lemma NotYetCollected(cycles: seq<CycleRecord>, clean: seq<CycleRecord>, idx: seq<nat>, i: nat)
    requires Distinct(cycles) && i < |cycles| && |clean| == |idx|
    requires forall j :: 0 <= j < |idx| ==> idx[j] < i && clean[j] == cycles[idx[j]]
    ensures forall j :: 0 <= j < |clean| ==> clean[j] != cycles[i]
    ensures forall m :: 0 <= m < |cycles| && m != i ==> cycles[m] != cycles[i]
  {
  }

  /** If the threshold is zero, no cycle passes the strict deviation test. */
  lemma ZeroThresholdKeepsNothing(Qd: seq<real>, Qmed: seq<real>)
    requires |Qmed| == |Qd| > 0
    requires Threshold(Qd, Qmed) == 0.0
    ensures Kept(Qd, ShouldKeep(Qd, Qmed, Threshold(Qd, Qmed)), |Qd|) == []
  {
    var keep := ShouldKeep(Qd, Qmed, Threshold(Qd, Qmed));
    KeptNone(Qd, keep, |Qd|);
  }

  /** Nothing is kept when no cycle passes the deviation test. */
  lemma {:induction false} KeptNone(Qd: seq<real>, keep: seq<bool>, n: nat)
    requires n <= |Qd| == |keep|
    requires forall i :: 0 <= i < n ==> !keep[i]
    ensures Kept(Qd, keep, n) == []
  {
    if n > 0 {
      KeptNone(Qd, keep, n - 1);
    }
  }

  /** The surviving cycle indices of a peak series whose filter window is odd. */
  function Survivors(Qd: seq<real>): (idx: seq<nat>)
    requires |Qd| > 0 && KernelSize(|Qd|) % 2 == 1
    ensures forall j :: 0 <= j < |idx| ==> idx[j] < |Qd| && Qd[idx[j]] > 0.1
    ensures forall j1, j2 :: 0 <= j1 < j2 < |idx| ==> idx[j1] < idx[j2]
  {
    var Qmed := MedFilt(Qd, KernelSize(|Qd|));
    Kept(Qd, ShouldKeep(Qd, Qmed, Threshold(Qd, Qmed)), |Qd|)
  }

  /** A battery with a single cycle is always skipped: the window is 1, so the
      filtered series equals the series, every deviation and so the
      threshold is 0, and nothing passes the strict test. */
  lemma SingleCycleSkipped(Qd: seq<real>)
    requires |Qd| == 1
    ensures Survivors(Qd) == []
  {
    var Qmed := MedFilt(Qd, 1);
    MedFiltWindowOne(Qd);
    var dev := Deviations(Qd, Qmed);
    assert dev == [0.0];
    MedianSingleton(0.0);
    ZeroThresholdKeepsNothing(Qd, Qmed);
  }

  /** Three cycles with peaks 2.0, 1.0 and 1.9 Ah: the window falls back to
      3, the filtered series is [1.0, 1.9, 1.0], the threshold is 0.9, and
      all three cycles survive. */
  lemma ThreeCycleBattery(x: seq<real>)
    requires x == [2.0, 1.0, 1.9]
    ensures KernelSize(|x|) == 3
    ensures MedFilt(x, 3) == [1.0, 1.9, 1.0]
    ensures Threshold(x, MedFilt(x, 3)) == 0.9
    ensures Survivors(x) == [0, 1, 2]
  {
    var med := MedFilt(x, 3);
    ThreeWindowMedians(x, med);
    ThreeCycleThreshold(x, med);
    ThreeCycleKept(x, med);
  }

  /** A strictly decreasing series 3.0, 2.0, 1.0 filters to [2.0, 2.0, 1.0]:
      away from the zero-padded end each value is its own window's median, so
      two deviations are exactly 0, the threshold is 0, and no cycle survives. */
  lemma MonotoneSeriesSkipped(x: seq<real>)
    requires x == [3.0, 2.0, 1.0]
    ensures MedFilt(x, 3) == [2.0, 2.0, 1.0]
    ensures Threshold(x, MedFilt(x, 3)) == 0.0
    ensures Survivors(x) == []
  {
    var med := MedFilt(x, 3);
    MonotoneWindowMedians(x, med);
    MonotoneThreshold(x, med);
    ZeroThresholdKeepsNothing(x, med);
  }

  lemma MonotoneWindowMedians(x: seq<real>, med: seq<real>)
    requires x == [3.0, 2.0, 1.0] && med == MedFilt(x, 3)
    ensures med == [2.0, 2.0, 1.0]
  {
    DecreasingFirstWindow(x);
    DecreasingMiddleWindow(x);
    DecreasingLastWindow(x);
    assert med[0] == 2.0 && med[1] == 2.0 && med[2] == 1.0;
  }

  lemma DecreasingFirstWindow(x: seq<real>)
    requires x == [3.0, 2.0, 1.0]
    ensures Median(Window(x, 3, 0)) == 2.0
  {
    WindowMedian(x, 0, [0.0, 3.0, 2.0], [0.0, 2.0, 3.0]);
  }

  lemma DecreasingMiddleWindow(x: seq<real>)
    requires x == [3.0, 2.0, 1.0]
    ensures Median(Window(x, 3, 1)) == 2.0
  {
    WindowMedian(x, 1, [3.0, 2.0, 1.0], [1.0, 2.0, 3.0]);
  }

  lemma DecreasingLastWindow(x: seq<real>)
    requires x == [3.0, 2.0, 1.0]
    ensures Median(Window(x, 3, 2)) == 1.0
  {
    WindowMedian(x, 2, [2.0, 1.0, 0.0], [0.0, 1.0, 2.0]);
  }

  lemma MonotoneThreshold(x: seq<real>, med: seq<real>)
    requires x == [3.0, 2.0, 1.0] && med == [2.0, 2.0, 1.0]
    ensures Threshold(x, med) == 0.0
  {
    var dev := Deviations(x, med);
    assert dev == [1.0, 0.0, 0.0];
    MedianOfOrdering(dev, [0.0, 0.0, 1.0]);
  }

  lemma ThreeCycleThreshold(x: seq<real>, med: seq<real>)
    requires x == [2.0, 1.0, 1.9] && med == [1.0, 1.9, 1.0]
    ensures Threshold(x, med) == 0.9
  {
    var dev := Deviations(x, med);
    assert dev == [1.0, 0.9, 0.9];
    MedianOfOrdering(dev, [0.9, 0.9, 1.0]);
  }

  lemma ThreeCycleKept(x: seq<real>, med: seq<real>)
    requires x == [2.0, 1.0, 1.9] && med == [1.0, 1.9, 1.0]
    ensures Kept(x, ShouldKeep(x, med, 0.9), 3) == [0, 1, 2]
  {
    var keep := ShouldKeep(x, med, 0.9);
    assert keep == [true, true, true];
    assert Kept(x, keep, 1) == [0];
    assert Kept(x, keep, 2) == [0, 1];
  }

  lemma ThreeWindowMedians(x: seq<real>, med: seq<real>)
    requires x == [2.0, 1.0, 1.9] && med == MedFilt(x, 3)
    ensures med == [1.0, 1.9, 1.0]
  {
    FirstWindow(x);
    MiddleWindow(x);
    LastWindow(x);
    assert med[0] == 1.0 && med[1] == 1.9 && med[2] == 1.0;
  }

  lemma FirstWindow(x: seq<real>)
    requires x == [2.0, 1.0, 1.9]
    ensures Median(Window(x, 3, 0)) == 1.0
  {
    WindowMedian(x, 0, [0.0, 2.0, 1.0], [0.0, 1.0, 2.0]);
  }

  lemma MiddleWindow(x: seq<real>)
    requires x == [2.0, 1.0, 1.9]
    ensures Median(Window(x, 3, 1)) == 1.9
  {
    WindowMedian(x, 1, [2.0, 1.0, 1.9], [1.0, 1.9, 2.0]);
  }

  lemma LastWindow(x: seq<real>)
    requires x == [2.0, 1.0, 1.9]
    ensures Median(Window(x, 3, 2)) == 1.0
  {
    WindowMedian(x, 2, [1.0, 1.9, 0.0], [0.0, 1.0, 1.9]);
  }

  lemma WindowMedian(x: seq<real>, i: nat, w: seq<real>, r: seq<real>)
    requires |x| == 3 && i < 3 && |w| == 3
    requires w[0] == (if i == 0 then 0.0 else x[i - 1]) && w[1] == x[i]
    requires w[2] == (if i == 2 then 0.0 else x[i + 1])
    requires SortedAsc(r) && multiset(r) == multiset(w)
    ensures |r| == 3 && Median(Window(x, 3, i)) == r[1]
  {
    assert Window(x, 3, i) == w;
    MedianOfOrdering(w, r);
  }

  /** Peak discharge capacities of the first (at most five) clean cycles. */
  function InitialCapacities(clean: seq<CycleRecord>): (caps: seq<real>)
    ensures |caps| == Min(5, |clean|)
    ensures forall j :: 0 <= j < |caps| ==> caps[j] == Peak(clean[j].discharge)
  {
    seq(Min(5, |clean|), j requires 0 <= j < Min(5, |clean|) => Peak(clean[j].discharge))
  }

  /** `np.mean` of the initial capacities, or 1.0 for none. The mean lies
      between the smallest and the largest initial capacity, and exceeds 0.1
      when all of them do. */
  function NominalCapacity(caps: seq<real>): (c: real)
    ensures |caps| > 0 ==> Least(caps) <= c <= Max(caps)
    ensures |caps| > 0 && (forall j :: 0 <= j < |caps| ==> caps[j] > 0.1) ==> c > 0.1
  {
    if |caps| > 0 then
      MeanBounds(caps, Least(caps), Max(caps));
      MeanAbove(caps, 0.1);
      Mean(caps)
    else 1.0
  }

  /** What happens to one battery. */
  datatype Outcome =
    | Processed(cycles: seq<CycleRecord>, nominal: real)
    | NoCleanCycles
    | KernelRejected(kernel: nat)

  function RawLabels(samples: seq<Sample>): (labels: seq<int>)
    ensures |labels| == |samples|
    ensures forall i :: 0 <= i < |samples| ==> labels[i] == samples[i].cycleIndex
  {
    seq(|samples|, i requires 0 <= i < |samples| => samples[i].cycleIndex)
  }

  /** The cycles of a battery: the maximal runs of its relabelled indices. */
  function CycleRuns(samples: seq<Sample>): (runs: seq<Run>)
    requires |samples| > 0
    ensures |runs| > 0
    ensures forall k :: 0 <= k < |runs| ==> runs[k].start < runs[k].end <= |samples|
  {
    Runs(Organized(RawLabels(samples)))
  }

  /** The samples of cycle `k`. */
  function CycleSamples(samples: seq<Sample>, k: nat): seq<Sample>
    requires |samples| > 0 && k < |CycleRuns(samples)|
  {
    samples[CycleRuns(samples)[k].start..CycleRuns(samples)[k].end]
  }

  ghost predicate SortedByTime(samples: seq<Sample>)
  {
    forall i, j :: 0 <= i <= j < |samples| ==> samples[i].time <= samples[j].time
  }

  lemma SliceSorted(samples: seq<Sample>, s: nat, e: nat)
    requires s <= e <= |samples| && SortedByTime(samples)
    ensures NonDecreasing(Times(samples[s..e]))
  {
    var t := Times(samples[s..e]);
    forall i, j | 0 <= i <= j < |t|
      ensures t[i] <= t[j]
    {
      assert t[i] == samples[s + i].time && t[j] == samples[s + j].time;
    }
  }

  /** For samples sorted by time, each cycle's charge and discharge
      capacities never decrease, and its peak discharge capacity is its final
      discharge capacity. */
  lemma CycleCapacitiesMonotone(samples: seq<Sample>, k: nat)
    requires |samples| > 0 && k < |CycleRuns(samples)|
    requires SortedByTime(samples)
    ensures var seg := CycleSamples(samples, k);
      NonDecreasing(Capacity(Currents(seg), Times(seg), true)) &&
      NonDecreasing(Capacity(Currents(seg), Times(seg), false)) &&
      DischargePeaks(samples)[k] == Capacity(Currents(seg), Times(seg), false)[|seg| - 1] >= 0.0
  {
    var seg := CycleSamples(samples, k);
    SliceSorted(samples, CycleRuns(samples)[k].start, CycleRuns(samples)[k].end);
    CapacityMonotone(Currents(seg), Times(seg), true);
    CapacityMonotone(Currents(seg), Times(seg), false);
    PeakDischarge(seg);
  }

  /** The peak discharge series of a battery. */
  function DischargePeaks(samples: seq<Sample>): (Qd: seq<real>)
    requires |samples| > 0
    ensures |Qd| == |CycleRuns(samples)|
  {
    seq(|CycleRuns(samples)|, k requires 0 <= k < |CycleRuns(samples)| =>
      var seg := CycleSamples(samples, k);
      Peak(Capacity(Currents(seg), Times(seg), false)))
  }

  /** Relabelling and assembly for one battery: one record per cycle, in
      order, numbered from 0. */
  method AssembleBattery(samples: seq<Sample>) returns (cycles: seq<CycleRecord>)
    requires |samples| > 0
    ensures |cycles| == |CycleRuns(samples)| && Distinct(cycles)
    ensures forall k :: 0 <= k < |cycles| ==> fresh(cycles[k])
    ensures forall k :: 0 <= k < |cycles| ==>
      cycles[k].number == k && AssembledFrom(cycles[k], CycleSamples(samples, k))
  {
    var labels := new int[|samples|](i requires 0 <= i < |samples| => samples[i].cycleIndex);
    assert labels[..] == RawLabels(samples);
    OrganizeCycleIndex(labels);
    cycles := AssembleCycles(samples, labels[..]);
  }

  /** The peak series of the assembled cycles is the battery's peak discharge series. */
  lemma AssembledPeaks(samples: seq<Sample>, cycles: seq<CycleRecord>, Qd: seq<real>)
    requires |samples| > 0
    requires |cycles| == |Qd| == |CycleRuns(samples)|
    requires forall k :: 0 <= k < |cycles| ==> AssembledFrom(cycles[k], CycleSamples(samples, k))
    requires forall k :: 0 <= k < |cycles| ==> Qd[k] == Peak(cycles[k].discharge)
    ensures Qd == DischargePeaks(samples)
  {
  }

  /** Outlier cleaning and the nominal-capacity estimate over the candidate
      cycles and their peak series. */
  method CleanCycles(cycles: seq<CycleRecord>, Qd: seq<real>) returns (out: Outcome)
    requires |Qd| == |cycles| > 0 && Distinct(cycles)
    requires forall k :: 0 <= k < |cycles| ==> Qd[k] == Peak(cycles[k].discharge)
    modifies cycles
    ensures out.KernelRejected? <==> |Qd| == 2 || |Qd| == 4
    ensures out.NoCleanCycles? <==> !out.KernelRejected? && Survivors(Qd) == []
    ensures out.Processed? ==>
      var idx := Survivors(Qd);
      |out.cycles| == |idx| > 0 &&
      (forall j :: 0 <= j < |idx| ==> out.cycles[j] == cycles[idx[j]] && out.cycles[j].number == j + 1) &&
      out.nominal == Mean(InitialCapacities(out.cycles)) &&
      out.nominal > 0.1
    ensures out.KernelRejected? ==>
      forall i :: 0 <= i < |cycles| ==> cycles[i].number == old(cycles[i].number)
    ensures !out.KernelRejected? ==>
      forall i :: 0 <= i < |cycles| && i !in Survivors(Qd) ==> cycles[i].number == old(cycles[i].number)
  {
    var k := KernelSize(|Qd|);
    if k % 2 == 0 {
      return KernelRejected(k);
    }
    var Qmed := MedFilt(Qd, k);
    var ths := Threshold(Qd, Qmed);
    var keep := ShouldKeep(Qd, Qmed, ths);
    assert Survivors(Qd) == Kept(Qd, keep, |Qd|);
    var clean := SelectClean(cycles, Qd, keep);
    forall i | 0 <= i < |cycles| && i !in Survivors(Qd)
      ensures !(keep[i] && Qd[i] > 0.1)
    {
      KeptExactly(Qd, keep, |Qd|, i);
    }
    if |clean| == 0 {
      return NoCleanCycles;
    }
    var caps := InitialCapacities(clean);
    InitialAboveFloor(cycles, Qd, Survivors(Qd), clean);
    out := Processed(clean, NominalCapacity(caps));
  }

  /** The initial capacities of the clean cycles all exceed 0.1, since each
      clean cycle is a survivor. */
  lemma InitialAboveFloor(cycles: seq<CycleRecord>, Qd: seq<real>, idx: seq<nat>,
                          clean: seq<CycleRecord>)
    requires |Qd| == |cycles| && |clean| == |idx|
    requires forall k :: 0 <= k < |cycles| ==> Qd[k] == Peak(cycles[k].discharge)
    requires forall j :: 0 <= j < |idx| ==> idx[j] < |Qd| && Qd[idx[j]] > 0.1
    requires forall j :: 0 <= j < |clean| ==> clean[j] == cycles[idx[j]]
    ensures forall j :: 0 <= j < |InitialCapacities(clean)| ==> InitialCapacities(clean)[j] > 0.1
  {
    var caps := InitialCapacities(clean);
    forall j | 0 <= j < |caps|
      ensures caps[j] > 0.1
    {
      assert clean[j] == cycles[idx[j]];
    }
  }

  /** The core of `SDUPreprocessor.process` for one battery whose samples are
      sorted by time: relabel, assemble, filter, renumber, estimate. */
  method ProcessBattery(samples: seq<Sample>) returns (out: Outcome)
    requires |samples| > 0
    ensures var n := |DischargePeaks(samples)|;
      out.KernelRejected? <==> n == 2 || n == 4
    ensures out.NoCleanCycles? <==>
      !out.KernelRejected? && Survivors(DischargePeaks(samples)) == []
    ensures out.Processed? ==>
      var idx := Survivors(DischargePeaks(samples));
      |out.cycles| == |idx| > 0 &&
      (forall j :: 0 <= j < |idx| ==>
        out.cycles[j].number == j + 1 &&
        AssembledFrom(out.cycles[j], CycleSamples(samples, idx[j]))) &&
      out.nominal == Mean(InitialCapacities(out.cycles)) &&
      out.nominal > 0.1
  {
    var cycles := AssembleBattery(samples);
    var Qd := PeakSeries(cycles);
    SameSurvivors(samples, cycles, Qd);
    // The check for an empty peak series cannot fire: there is at least one sample.
    assert |Qd| > 0;
    out := CleanCycles(cycles, Qd);
    if out.Processed? {
      ghost var idx := Survivors(Qd);
      forall j | 0 <= j < |idx|
        ensures AssembledFrom(out.cycles[j], CycleSamples(samples, idx[j]))
      {
        assert out.cycles[j] == cycles[idx[j]];
      }
    }
  }

  /** The assembled records' peak series selects the same survivors as the
      battery's peak discharge series. */
  lemma SameSurvivors(samples: seq<Sample>, cycles: seq<CycleRecord>, Qd: seq<real>)
    requires |samples| > 0
    requires |cycles| == |Qd| == |CycleRuns(samples)|
    requires forall k :: 0 <= k < |cycles| ==> AssembledFrom(cycles[k], CycleSamples(samples, k))
    requires forall k :: 0 <= k < |cycles| ==> Qd[k] == Peak(cycles[k].discharge)
    ensures |Qd| == |DischargePeaks(samples)| > 0
    ensures KernelSize(|Qd|) % 2 == 1 ==> Survivors(Qd) == Survivors(DischargePeaks(samples))
  {
    AssembledPeaks(samples, cycles, Qd);
  }

  /** Each collected record is the record assembled from its cycle's samples. */
  lemma SurvivorsAssembled(samples: seq<Sample>, cycles: seq<CycleRecord>, idx: seq<nat>,
                           clean: seq<CycleRecord>)
    requires |samples| > 0 && |cycles| == |CycleRuns(samples)| && |clean| == |idx|
    requires forall k :: 0 <= k < |cycles| ==> AssembledFrom(cycles[k], CycleSamples(samples, k))
    requires forall j :: 0 <= j < |idx| ==> idx[j] < |cycles| && clean[j] == cycles[idx[j]]
    ensures forall j :: 0 <= j < |idx| ==> AssembledFrom(clean[j], CycleSamples(samples, idx[j]))
  {
  }
}
