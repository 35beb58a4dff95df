/** Cycle assembly (the `enumerate(groupby(...))` loop of
    `SDUPreprocessor.process`): the time-sorted samples of one battery are
    split by their relabelled cycle index, and each group becomes a cycle
    record whose charge and discharge capacities are integrated by `calc_Q`. */
module Assembly {
  import opened Integrator
  import opened CycleIndex

  /** One measurement row, reduced to the columns the pipeline reads. */
  datatype Sample = Sample(time: real, cycleIndex: int, current: real, voltage: real)

  /** A cycle record (`CycleData`). Only `number` is updated after
      construction (the cleaning step renumbers the surviving cycles). */
  class CycleRecord {
    var number: int
    const voltage: seq<real>
    const current: seq<real>
    const time: seq<real>
    const charge: seq<real>
    const discharge: seq<real>

    constructor (number: int, voltage: seq<real>, current: seq<real>, time: seq<real>,
                 charge: seq<real>, discharge: seq<real>)
      ensures this.number == number && this.voltage == voltage && this.current == current
      ensures this.time == time && this.charge == charge && this.discharge == discharge
    {
      this.number := number;
      this.voltage := voltage;
      this.current := current;
      this.time := time;
      this.charge := charge;
      this.discharge := discharge;
    }
  }

  function Times(seg: seq<Sample>): (r: seq<real>)
    ensures |r| == |seg| && forall i :: 0 <= i < |seg| ==> r[i] == seg[i].time
  {
    seq(|seg|, i requires 0 <= i < |seg| => seg[i].time)
  }

  function Currents(seg: seq<Sample>): (r: seq<real>)
    ensures |r| == |seg| && forall i :: 0 <= i < |seg| ==> r[i] == seg[i].current
  {
    seq(|seg|, i requires 0 <= i < |seg| => seg[i].current)
  }

  function Voltages(seg: seq<Sample>): (r: seq<real>)
    ensures |r| == |seg| && forall i :: 0 <= i < |seg| ==> r[i] == seg[i].voltage
  {
    seq(|seg|, i requires 0 <= i < |seg| => seg[i].voltage)
  }

  /** The samples `[start, end)` of one cycle. */
  datatype Run = Run(start: nat, end: nat)

  /** End of the maximal run of equal labels that begins at `s`. */
  function RunEnd(labels: seq<int>, s: nat): (e: nat)
    requires s < |labels|
    ensures s < e <= |labels|
    ensures forall j :: s <= j < e ==> labels[j] == labels[s]
    ensures e < |labels| ==> labels[e] != labels[e - 1]
    decreases |labels| - s
  {
    if s + 1 == |labels| || labels[s + 1] != labels[s] then s + 1
    else RunEnd(labels, s + 1)
  }

  /** The runs tile `[s, n)` in order, each non-empty, each of one label,
      and every boundary between two runs is a change of label. */
  ghost predicate Tiles(labels: seq<int>, runs: seq<Run>, s: nat)
  {
    s <= |labels| &&
    (|runs| == 0 <==> s == |labels|) &&
    (|runs| > 0 ==> runs[0].start == s && runs[|runs| - 1].end == |labels|) &&
    (forall k :: 0 <= k < |runs| ==> runs[k].start < runs[k].end <= |labels|) &&
    (forall k :: 0 <= k < |runs| - 1 ==> runs[k].end == runs[k + 1].start) &&
    (forall k, j :: 0 <= k < |runs| && runs[k].start <= j < runs[k].end ==>
       labels[j] == labels[runs[k].start]) &&
    (forall k :: 0 <= k < |runs| && runs[k].end < |labels| ==>
       labels[runs[k].end] != labels[runs[k].end - 1])
  }

  function RunsFrom(labels: seq<int>, s: nat): (runs: seq<Run>)
    requires s <= |labels|
    ensures Tiles(labels, runs, s)
    decreases |labels| - s
  {
    if s == |labels| then []
    else
      var e := RunEnd(labels, s);
      var rest := RunsFrom(labels, e);
      TilesCons(labels, s, e, rest);
      [Run(s, e)] + rest
  }

  /** A maximal run from `s` to `e` followed by a tiling of `[e, n)` tiles `[s, n)`. */
  lemma TilesCons(labels: seq<int>, s: nat, e: nat, rest: seq<Run>)
    requires s < e <= |labels|
    requires forall j :: s <= j < e ==> labels[j] == labels[s]
    requires e < |labels| ==> labels[e] != labels[e - 1]
    requires Tiles(labels, rest, e)
    ensures Tiles(labels, [Run(s, e)] + rest, s)
  {
    var runs := [Run(s, e)] + rest;
    forall k | 0 <= k < |runs|
      ensures runs[k].start < runs[k].end <= |labels|
      ensures forall j :: runs[k].start <= j < runs[k].end ==> labels[j] == labels[runs[k].start]
      ensures runs[k].end < |labels| ==> labels[runs[k].end] != labels[runs[k].end - 1]
    {
      if k > 0 {
        assert runs[k] == rest[k - 1];
      }
    }
    forall k | 0 <= k < |runs| - 1
      ensures runs[k].end == runs[k + 1].start
    {
      assert runs[k + 1] == rest[k];
      if k > 0 {
        assert runs[k] == rest[k - 1];
      }
    }
  }

  /** The maximal runs of equal labels, in order. */
  function Runs(labels: seq<int>): (runs: seq<Run>)
    ensures Tiles(labels, runs, 0)
  {
    RunsFrom(labels, 0)
  }

  /** Grouping by a non-decreasing key gives exactly the maximal runs: a
      sample belongs to run `k` if and only if its label is run `k`'s label,
      and the runs' labels strictly increase. */
  lemma RunsAreGroups(labels: seq<int>, k: nat, j: nat)
    requires forall x, y :: 0 <= x <= y < |labels| ==> labels[x] <= labels[y]
    requires k < |Runs(labels)| && j < |labels|
    ensures labels[j] == labels[Runs(labels)[k].start] <==>
            Runs(labels)[k].start <= j < Runs(labels)[k].end
    ensures k + 1 < |Runs(labels)| ==>
            labels[Runs(labels)[k].start] < labels[Runs(labels)[k + 1].start]
  {
    var runs := Runs(labels);
    var r := runs[k];
    if k > 0 {
      assert runs[k - 1].end == r.start;
      assert labels[r.start] != labels[r.start - 1];
    }
    if r.end < |labels| {
      assert labels[r.end] != labels[r.end - 1];
      assert labels[r.end - 1] == labels[r.start];
    }
    if k + 1 < |runs| {
      assert runs[k].end == runs[k + 1].start;
    }
  }

  /** Over relabelled indices, run `k` carries label `first + k`, where
      `first` is the first raw label. */
  lemma {:induction false} RunLabels(a: seq<int>, k: nat)
    requires |a| > 0
    requires k < |Runs(Organized(a))|
    ensures Organized(a)[Runs(Organized(a))[k].start] == a[0] + k
  {
    var r := Organized(a);
    var runs := Runs(r);
    if k > 0 {
      RunLabels(a, k - 1);
      var s := runs[k].start;
      assert runs[k - 1].end == s;
      assert r[s - 1] == r[runs[k - 1].start];
      OrganizedStep(a, s);
    }
  }

  /** The number of assembled cycles is one more than the number of raw label changes. */
  lemma RunCount(a: seq<int>)
    requires |a| > 0
    ensures |Runs(Organized(a))| == Changes(a) + 1
  {
    var r := Organized(a);
    var runs := Runs(r);
    var last := |runs| - 1;
    RunLabels(a, last);
    assert r[|a| - 1] == r[runs[last].start];
    OrganizedLast(a);
  }

  /** A cycle record built from the samples `seg`: the three measured columns
      are copied, and charge and discharge capacity are integrated. */
  ghost predicate AssembledFrom(c: CycleRecord, seg: seq<Sample>)
  {
    c.time == Times(seg) && c.current == Currents(seg) && c.voltage == Voltages(seg) &&
    c.charge == Capacity(Currents(seg), Times(seg), true) &&
    c.discharge == Capacity(Currents(seg), Times(seg), false)
  }

  /** Every assembled cycle has five columns of one common, non-zero length,
      and both capacities start at zero. */
  lemma AssembledShape(c: CycleRecord, seg: seq<Sample>)
    requires |seg| > 0 && AssembledFrom(c, seg)
    ensures |c.time| == |c.current| == |c.voltage| == |c.charge| == |c.discharge| == |seg|
    ensures c.charge[0] == 0.0 && c.discharge[0] == 0.0
  {
  }

  ghost predicate Distinct(cycles: seq<CycleRecord>)
  {
    forall i, j :: 0 <= i < j < |cycles| ==> cycles[i] != cycles[j]
  }

  /** The cycle-assembly loop: one record per group, numbered from 0. */
  method AssembleCycles(samples: seq<Sample>, labels: seq<int>) returns (cycles: seq<CycleRecord>)
    requires |labels| == |samples|
    ensures |cycles| == |Runs(labels)| && Distinct(cycles)
    ensures forall k :: 0 <= k < |cycles| ==> fresh(cycles[k])
    ensures forall k :: 0 <= k < |cycles| ==>
      cycles[k].number == k &&
      AssembledFrom(cycles[k], samples[Runs(labels)[k].start..Runs(labels)[k].end])
  {
    var runs := Runs(labels);
    cycles := [];
    var k := 0;
    while k < |runs|
      invariant 0 <= k <= |runs| && |cycles| == k && Distinct(cycles)
      invariant forall j :: 0 <= j < k ==> fresh(cycles[j])
      invariant forall j :: 0 <= j < k ==>
        cycles[j].number == j && AssembledFrom(cycles[j], samples[runs[j].start..runs[j].end])
    {
      var seg := samples[runs[k].start..runs[k].end];
      var I, t, V := Currents(seg), Times(seg), Voltages(seg);
      var Qd := CalcQ(I, t, false);
      var Qc := CalcQ(I, t, true);
      var c := new CycleRecord(k, V, I, t, Qc[..], Qd[..]);
      cycles := cycles + [c];
      k := k + 1;
    }
  }
}
