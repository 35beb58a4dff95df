/** The centred sliding median that `scipy.signal.medfilt` computes for an
    odd kernel size `k`: position `i` gets the median of the `k` values
    centred on it, the input being padded with zeros beyond either end. */
module MedianFilter {
  import opened Stats

  /** The `k` values centred on position `i`, zero beyond either end of `x`. */
  function Window(x: seq<real>, k: nat, i: nat): (w: seq<real>)
    ensures |w| == k
  {
    seq(k, j requires 0 <= j < k =>
      var p := i + j - k / 2;
      if 0 <= p < |x| then x[p] else 0.0)
  }

  /** `medfilt(x, k)` for an odd `k`; one output per input. */
  function MedFilt(x: seq<real>, k: nat): (y: seq<real>)
    requires k % 2 == 1
    ensures |y| == |x|
  {
    seq(|x|, i requires 0 <= i < |x| => Median(Window(x, k, i)))
  }

  /** A window of 1 leaves the series unchanged. */
  lemma MedFiltWindowOne(x: seq<real>)
    ensures MedFilt(x, 1) == x
  {
    var y := MedFilt(x, 1);
    forall i | 0 <= i < |x|
      ensures y[i] == x[i]
    {
      assert Window(x, 1, i) == [x[i]];
      MedianSingleton(x[i]);
    }
  }

  /** Filtering non-negative values gives non-negative values (the zero
      padding is non-negative too). */
  lemma MedFiltNonNegative(x: seq<real>, k: nat)
    requires k % 2 == 1
    requires forall i :: 0 <= i < |x| ==> x[i] >= 0.0
    ensures forall i :: 0 <= i < |x| ==> MedFilt(x, k)[i] >= 0.0
  {
    forall i | 0 <= i < |x|
      ensures MedFilt(x, k)[i] >= 0.0
    {
      var w := Window(x, k, i);
      MedianBounds(w, 0.0, Max(w));
    }
  }
}
