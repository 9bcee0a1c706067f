/** The least-mean-squares predictor: ring-buffer dot product, shifted norm, weight update and weight halving. */
module Lms {
  import opened Machine

  const HIST_SIZE: nat := 5
  const LRATE: real := 0.000001
  /** The float constant 0.1f, exactly. */
  const INITIAL_WEIGHT: real := 13421773.0 / 134217728.0

  // ---------------------------------------------------------------- specification functions

  /** The ring slot that holds the sample of the given age when the newest sample is in slot ri. */
  function Slot(ri: nat, age: nat, n: nat): (slot: nat)
    requires ri < n && age < n
    ensures slot < n
  {
    if age <= ri then ri - age else ri + n - age
  }

  /** The ring read newest first. */
  function Recent(x: seq<nat>, ri: nat): (r: seq<nat>)
    requires ri < |x|
    ensures |r| == |x|
  {
    seq(|x|, age requires 0 <= age < |x| => x[Slot(ri, age, |x|)])
  }

  /** A sample in double precision times its weight. */
  function Weighted(w: real, v: nat): real { w * v as real }

  /** The first n weights against the first n samples. */
  function Dot(w: seq<real>, x: seq<nat>, n: nat): real
    requires n <= |w| && n <= |x|
  {
    if n == 0 then 0.0 else Dot(w, x, n - 1) + Weighted(w[n - 1], x[n - 1])
  }

  /** The prediction: weight i meets the sample of age i, as far as both sequences reach. */
  function Predict(x: seq<nat>, w: seq<real>, ri: nat): real
    requires ri < |x|
  {
    Dot(w, Recent(x, ri), Min(|w|, |x|))
  }

  function Sum(f: nat -> nat, x: seq<nat>): nat
  {
    if x == [] then 0 else Sum(f, x[..|x| - 1]) + f(x[|x| - 1])
  }

  /** Every sample of a history is below a bound. */
  predicate AllBelow(x: seq<nat>, bound: nat) { forall i :: 0 <= i < |x| ==> x[i] < bound }

  function Square(v: nat): nat { v * v }

  function ShiftedSquare(v: nat): nat { v * v / 0x1_0000 }

  /** The truncated squared norm: every square is shifted right by 16 bits before it is added. */
  function NormSq(x: seq<nat>): nat { Sum(ShiftedSquare, x) }

  function Sign(e: int): int { if e < 0 then -1 else 1 }

  /** The integer gradient of one slot: the low half of the product, divided. */
  function Gradient(e: int, v: nat, norm: nat): nat
    requires norm > 0
  {
    Low64(Abs(e) * v) / norm
  }

  /** What one update adds to the weight of one slot. */
  function Nudge(e: int, v: nat, norm: nat): real
    requires norm > 0
  {
    Sign(e) as real * (Gradient(e, v, norm) as real * LRATE)
  }

  /** The norm as the u64 that the code divides by. */
  function Norm64(x: seq<nat>): nat { Low64(NormSq(x)) }

  /** One weight update: weight i meets raw slot i. */
  function Update(w: seq<real>, x: seq<nat>, e: int): (r: seq<real>)
    requires |w| == |x|
    ensures |r| == |w|
  {
    var n := Norm64(x);
    if n == 0 then w
    else seq(|w|, i requires 0 <= i < |w| => w[i] + Nudge(e, x[i], n))
  }

  function Halve(w: seq<real>): (r: seq<real>)
    ensures |r| == |w|
  {
    seq(|w|, i requires 0 <= i < |w| => w[i] / 2.0)
  }

  function InitialWeights(): (r: seq<real>)
    ensures |r| == HIST_SIZE
  {
    seq(HIST_SIZE, i => INITIAL_WEIGHT)
  }

  // ---------------------------------------------------------------- the in-place code

  /** Two segments: from ri down to slot 0, then from the last slot down to ri + 1. */
  method LmsPredict(feat: array<nat>, wm: array<real>, ri: nat) returns (sum: real)
    requires ri < feat.Length
    ensures sum == Predict(feat[..], wm[..], ri)
  {
    var bias := 0.0;
    sum := 0.0;
    var i := 0;
    var j: int := ri;
    ghost var weights, ages := wm[..], Recent(feat[..], ri);
    while i < wm.Length && j >= 0
      invariant i <= wm.Length && i <= ri + 1 && j == ri - i
      invariant sum == Dot(weights, ages, i)
    {
      sum := sum + Weighted(wm[i], feat[j]);
      i, j := i + 1, j - 1;
    }
    j := feat.Length - 1;
    while i < wm.Length && j > ri
      invariant i <= wm.Length && i <= feat.Length
      invariant i == wm.Length || (i > ri && j == ri + feat.Length - i)
      invariant sum == Dot(weights, ages, i)
    {
      sum := sum + Weighted(wm[i], feat[j]);
      i, j := i + 1, j - 1;
    }
    sum := sum + bias;
  }

  /** The prediction without its fraction, as the u64 that carries a C int. */
  method Estimate(feat: array<nat>, wm: array<real>, index: nat) returns (integerPart: nat)
    requires index < feat.Length
    requires FitsInt(Predict(feat[..], wm[..], index))
    ensures integerPart == Low64(Truncate(Predict(feat[..], wm[..], index)))
  {
    var result := LmsPredict(feat, wm, index);
    integerPart := Low64(Truncate(result));
  }

  method L2Norm(feature: array<nat>) returns (normSq: nat)
    ensures normSq == Norm64(feature[..])
  {
    normSq := 0;
    var i := 0;
    ghost var x := feature[..];
    while i < feature.Length
      invariant i <= feature.Length
      invariant normSq == Norm64(x[..i])
    {
      NormStep(x, i);
      LowOfSum(NormSq(x[..i]), feature[i] * feature[i] / 0x1_0000);
      normSq := Low64(normSq + Low64(feature[i] * feature[i] / 0x1_0000));
      i := i + 1;
    }
    assert x[..i] == x;
  }

  lemma NormStep(x: seq<nat>, i: nat)
    requires i < |x|
    ensures NormSq(x[..i + 1]) == NormSq(x[..i]) + x[i] * x[i] / 0x1_0000
  {
    assert x[..i + 1][..i] == x[..i];
  }

  lemma LowOfSum(a: nat, b: nat)
    ensures Low64(Low64(a) + Low64(b)) == Low64(a + b)
  {
  }

  lemma ProductMonotone(a: nat, b: nat, c: nat, d: nat)
    requires a <= c && b <= d
    ensures a * b <= c * d
  {
    assert a * b <= c * b;
    assert c * b <= c * d;
  }

  /** The update of one weight matrix from the history it belongs to; read and write use the same code. */
  method UpdateWeights(error: int, hist: array<nat>, wm: array<real>)
    requires hist.Length == wm.Length
    requires -S64 <= error < S64
    modifies wm
    ensures wm[..] == Update(old(wm[..]), hist[..], error)
  {
    var normSq := L2Norm(hist);
    if normSq == 0 {
      return;
    }
    var signBit := if error < 0 then -1 else 1;
    var magnitude := error * signBit;
    hide Nudge, Norm64, Low64;
    var i := 0;
    while i < hist.Length
      invariant i <= hist.Length
      invariant forall k :: 0 <= k < i ==> wm[k] == old(wm[k]) + Nudge(error, hist[k], normSq)
      invariant forall k :: i <= k < wm.Length ==> wm[k] == old(wm[k])
    {
      var product := Product(magnitude, hist[i], normSq);
      ProductIsNudge(error, signBit, magnitude, hist[i], normSq, product);
      wm[i] := wm[i] + signBit as real * product;
      i := i + 1;
    }
  }

  lemma ProductIsNudge(error: int, signBit: int, magnitude: nat, v: nat, norm: nat, product: real)
    requires norm > 0 && signBit == Sign(error) && magnitude == Abs(error)
    requires product == (Low64(magnitude * v) / norm) as real * LRATE
    ensures signBit as real * product == Nudge(error, v, norm)
  {
  }

  /** The scaled gradient of one slot: the low half of a product, an integer division, and the learning rate. */
  method Product(error: nat, v: nat, normSq: nat) returns (product: real)
    requires normSq > 0
    ensures product == (Low64(error * v) / normSq) as real * LRATE
  {
    var t1 := Low64(error * v);
    var t2 := (t1 / normSq) as real;
    product := t2 * LRATE;
  }

  /** Sets the weights to their initial value, or scales them down by two. */
  method InitializeWeights(wm: array<real>, first: bool)
    modifies wm
    ensures first ==> forall k :: 0 <= k < wm.Length ==> wm[k] == INITIAL_WEIGHT
    ensures !first ==> wm[..] == Halve(old(wm[..]))
  {
    var i := 0;
    while i < wm.Length
      invariant i <= wm.Length
      invariant forall k :: 0 <= k < i ==> wm[k] == if first then INITIAL_WEIGHT else old(wm[k]) / 2.0
      invariant forall k :: i <= k < wm.Length ==> wm[k] == old(wm[k])
    {
      wm[i] := if first then INITIAL_WEIGHT else wm[i] / 2.0;
      i := i + 1;
    }
  }
}
