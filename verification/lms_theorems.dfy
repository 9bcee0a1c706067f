/** What the predictor guarantees: the circular traversal, the size and the direction of weight updates. */
module LmsTheorems {
  import opened Machine
  import opened Rounding
  import opened Lms

  // ---------------------------------------------------------------- the circular traversal

  /** The textbook form of the prediction: slot indices count down modulo the ring size. */
  function CircularSum(x: seq<nat>, w: seq<real>, ri: nat, m: nat): real
    requires ri < |x| && m <= |w| && m <= |x|
  {
    if m == 0 then 0.0
    else CircularSum(x, w, ri, m - 1) + Weighted(w[m - 1], x[(ri - (m - 1)) % |x|])
  }

  lemma SlotIsModulo(ri: nat, age: nat, n: nat)
    requires ri < n && age < n
    ensures Slot(ri, age, n) == (ri - age) % n
  {
    RemainderUnique(ri - age, n, if age <= ri then 0 else -1, Slot(ri, age, n));
  }

  lemma RemainderUnique(x: int, n: nat, q: int, r: nat)
    requires r < n && x == q * n + r
    ensures x % n == r
  {
    QuotientUnique(x / n, x % n, q, r, n);
  }

  lemma QuotientUnique(p: int, s: nat, q: int, r: nat, n: nat)
    requires p * n + s == q * n + r && s < n && r < n
    ensures p == q && s == r
  {
    SumOfMultiples(q, 1, n);
    SumOfMultiples(p, 1, n);
    if p > q { MulMonotone(q + 1, p, n); } else if p < q { MulMonotone(p + 1, q, n); }
  }

  /** Slot is its own inverse, so every slot is visited exactly once in a full traversal. */
  lemma SlotInvolution(ri: nat, age: nat, n: nat)
    requires ri < n && age < n
    ensures Slot(ri, Slot(ri, age, n), n) == age
    ensures forall other: nat :: other < n && other != age ==> Slot(ri, other, n) != Slot(ri, age, n)
  {
  }

  lemma {:induction false} DotIsCircular(x: seq<nat>, w: seq<real>, ri: nat, m: nat)
    requires ri < |x| && m <= |w| && m <= |x|
    ensures Dot(w, Recent(x, ri), m) == CircularSum(x, w, ri, m)
  {
    if m > 0 {
      DotIsCircular(x, w, ri, m - 1);
      SlotIsModulo(ri, m - 1, |x|);
    }
  }

  /** The prediction is that sum, over as many terms as the shorter of the two sequences has. */
  lemma PredictIsCircular(x: seq<nat>, w: seq<real>, ri: nat)
    requires ri < |x|
    ensures Predict(x, w, ri) == CircularSum(x, w, ri, Min(|w|, |x|))
  {
    DotIsCircular(x, w, ri, Min(|w|, |x|));
  }

  /** The dot product is linear in the weights. */
  lemma {:induction false} DotIsLinear(w: seq<real>, v: seq<real>, k: real, u: seq<real>, x: seq<nat>, n: nat)
    requires n <= |w| == |v| == |u| && n <= |x|
    requires forall i :: 0 <= i < |u| ==> u[i] == w[i] + k * v[i]
    ensures Dot(u, x, n) == Dot(w, x, n) + k * Dot(v, x, n)
  {
    if n > 0 {
      DotIsLinear(w, v, k, u, x, n - 1);
      WeightedIsLinear(w[n - 1], v[n - 1], k, x[n - 1]);
      Distribute3(k, Dot(v, x, n - 1), Weighted(v[n - 1], x[n - 1]));
    }
  }

  lemma WeightedIsLinear(w: real, v: real, k: real, y: nat)
    ensures Weighted(w + k * v, y) == Weighted(w, y) + k * Weighted(v, y)
  {
  }

  lemma Distribute3(k: real, a: real, b: real)
    ensures k * (a + b) == k * a + k * b
  {
  }

  /** The weight vector that is one at age k and zero elsewhere. */
  function UnitWeights(k: nat, n: nat): (w: seq<real>)
    ensures |w| == n
  {
    seq(n, i => if i == k then 1.0 else 0.0)
  }

  lemma {:induction false} UnitDot(x: seq<nat>, k: nat, m: nat)
    requires m <= |x|
    ensures Dot(UnitWeights(k, |x|), x, m) == if k < m then x[k] as real else 0.0
  {
    if m > 0 { UnitDot(x, k, m - 1); }
  }

  /** A single weight of one at age k predicts exactly the sample of that age; with linearity this fixes the prediction
      for every weight vector. */
  lemma UnitWeightPicksSample(x: seq<nat>, ri: nat, k: nat)
    requires ri < |x| && k < |x|
    ensures Predict(x, UnitWeights(k, |x|), ri) == x[(ri - k) % |x|] as real
  {
    UnitDot(Recent(x, ri), k, |x|);
    SlotIsModulo(ri, k, |x|);
  }

  /** Halving all weights halves the prediction. */
  lemma HalvingHalvesPrediction(x: seq<nat>, w: seq<real>, ri: nat)
    requires ri < |x|
    ensures Predict(x, Halve(w), ri) == Predict(x, w, ri) / 2.0
  {
    DotIsLinear(w, w, -0.5, Halve(w), Recent(x, ri), Min(|w|, |x|));
  }

  // ---------------------------------------------------------------- sums over a permuted ring

  function Reverse(x: seq<nat>): (r: seq<nat>)
    ensures |r| == |x|
  {
    seq(|x|, i requires 0 <= i < |x| => x[|x| - 1 - i])
  }

  lemma {:induction false} SumAppend(f: nat -> nat, a: seq<nat>, b: seq<nat>)
    ensures Sum(f, a + b) == Sum(f, a) + Sum(f, b)
  {
    if b == [] {
      assert a + b == a;
    } else {
      var k := |b| - 1;
      SumAppend(f, a, b[..k]);
      assert (a + b)[..|a + b| - 1] == a + b[..k];
    }
  }

  lemma {:induction false} SumReverse(f: nat -> nat, x: seq<nat>)
    ensures Sum(f, Reverse(x)) == Sum(f, x)
  {
    if x != [] {
      var k := |x| - 1;
      SumReverse(f, x[..k]);
      assert Reverse(x) == [x[k]] + Reverse(x[..k]);
      SumAppend(f, [x[k]], Reverse(x[..k]));
    }
  }

  lemma RecentIsTwoRuns(x: seq<nat>, ri: nat)
    requires ri < |x|
    ensures Recent(x, ri) == Reverse(x[..ri + 1]) + Reverse(x[ri + 1..])
  {
  }

  /** Reading the ring newest first permutes it: every sum over the slots is unchanged. */
  lemma SumRecent(f: nat -> nat, x: seq<nat>, ri: nat)
    requires ri < |x|
    ensures Sum(f, Recent(x, ri)) == Sum(f, x)
  {
    var newer, older := x[..ri + 1], x[ri + 1..];
    RecentIsTwoRuns(x, ri);
    SumAppend(f, Reverse(newer), Reverse(older));
    SumReverse(f, newer);
    SumReverse(f, older);
    SumAppend(f, newer, older);
    assert newer + older == x;
  }

  // ---------------------------------------------------------------- the truncated norm

  /** The norm is at least every term of it. */
  lemma {:induction false} NormCoversTerm(x: seq<nat>, i: nat)
    requires i < |x|
    ensures ShiftedSquare(x[i]) <= NormSq(x)
  {
    if i < |x| - 1 { NormCoversTerm(x[..|x| - 1], i); }
  }

  lemma ShiftedSquareZeroIff(v: nat)
    ensures ShiftedSquare(v) == 0 <==> v < 256
  {
    if v < 256 {
      ProductMonotone(v, v, 255, 255);
    } else {
      ProductMonotone(256, 256, v, v);
    }
  }

  /** The update is skipped exactly when every sample of the history is below 256. */
  lemma {:induction false} NormZeroIff(x: seq<nat>)
    ensures NormSq(x) == 0 <==> AllBelow(x, 256)
  {
    if x != [] {
      NormZeroIff(x[..|x| - 1]);
      ShiftedSquareZeroIff(x[|x| - 1]);
      assert forall i :: 0 <= i < |x| - 1 ==> x[i] == x[..|x| - 1][i];
    }
  }

  /** What truncation loses: less than 2^16 per sample. */
  lemma {:induction false} SquaresBelowNorm(x: seq<nat>)
    ensures Sum(Square, x) <= 0x1_0000 * NormSq(x) + 0xFFFF * |x|
  {
    if x != [] { SquaresBelowNorm(x[..|x| - 1]); }
  }

  /** Samples below 2^32, which is what two readings inside one window of the C int give, keep the norm in 64 bits. */
  lemma {:induction false} NormBelow(x: seq<nat>)
    requires AllBelow(x, U32)
    ensures NormSq(x) <= 0x1_0000_0000_0000 * |x|
  {
    if x != [] {
      var k := |x| - 1;
      NormBelow(x[..k]);
      ProductMonotone(x[k], x[k], 0xFFFF_FFFF, 0xFFFF_FFFF);
    }
  }

  lemma NormFits(x: seq<nat>)
    requires AllBelow(x, U32) && |x| <= 0xFF
    ensures NormSq(x) < U64 && Norm64(x) == NormSq(x)
  {
    NormBelow(x);
    LowIdentity(NormSq(x));
  }

  lemma NormOfSingle(v: nat)
    ensures NormSq([v, 0, 0, 0, 0]) == ShiftedSquare(v)
  {
    var x := [v, 0, 0, 0, 0];
    assert x[..4] == [v, 0, 0, 0] && [v, 0, 0, 0][..3] == [v, 0, 0] && [v, 0, 0][..2] == [v, 0] && [v, 0][..1] == [v];
    assert [v][..0] == [] && NormSq([]) == 0;
    assert NormSq([v]) == NormSq([v][..0]) + ShiftedSquare(v);
    assert NormSq([v, 0]) == ShiftedSquare(v);
    assert NormSq([v, 0, 0]) == ShiftedSquare(v);
    assert NormSq([v, 0, 0, 0]) == ShiftedSquare(v);
  }

  // ---------------------------------------------------------------- updates never overshoot

  function DotNat(q: seq<nat>, x: seq<nat>, n: nat): nat
    requires n <= |q| && n <= |x|
  {
    if n == 0 then 0 else DotNat(q, x, n - 1) + q[n - 1] * x[n - 1]
  }

  function Gradients(e: int, x: seq<nat>, norm: nat): (q: seq<nat>)
    requires norm > 0
    ensures |q| == |x|
  {
    seq(|x|, i requires 0 <= i < |x| => Gradient(e, x[i], norm))
  }

  /** The prediction moves by the learning rate times the integer gradient's dot product. */
  lemma {:induction false} DotOfUpdate(
      w: seq<real>, w': seq<real>, x: seq<nat>, e: int, norm: nat, r: seq<nat>, n: nat)
    requires norm > 0 && n <= |w| == |w'| == |x| == |r|
    requires forall i :: 0 <= i < |w| ==> w'[i] == w[i] + Nudge(e, x[i], norm)
    ensures Dot(w', r, n) - Dot(w, r, n) == Step(e, DotNat(Gradients(e, x, norm), r, n))
  {
    if n > 0 {
      DotOfUpdate(w, w', x, e, norm, r, n - 1);
      NudgeTimes(w[n - 1], e, x[n - 1], norm, r[n - 1]);
      StepAdds(e, DotNat(Gradients(e, x, norm), r, n - 1), Gradient(e, x[n - 1], norm) * r[n - 1]);
    }
  }

  /** A prediction's shift, in the direction of the error, for an integer gain. */
  function Step(e: int, gain: nat): real { Sign(e) as real * (gain as real * LRATE) }

  lemma StepAdds(e: int, a: nat, b: nat)
    ensures Step(e, a + b) == Step(e, a) + Step(e, b)
  {
  }

  lemma NudgeTimes(w: real, e: int, v: nat, norm: nat, y: nat)
    requires norm > 0
    ensures Weighted(w + Nudge(e, v, norm), y) == Weighted(w, y) + Step(e, Gradient(e, v, norm) * y)
  {
    var g := Gradient(e, v, norm);
    assert (g * y) as real == g as real * y as real;
  }

  /** Floor division: norm times the gradient stays below error times sample. */
  lemma {:induction false} GradientsBounded(e: int, x: seq<nat>, norm: nat, r: seq<nat>, n: nat)
    requires norm > 0 && n <= |x| == |r|
    ensures DotNat(Gradients(e, x, norm), r, n) * norm <= Abs(e) * DotNat(x, r, n)
  {
    if n > 0 {
      var k := n - 1;
      GradientsBounded(e, x, norm, r, k);
      var q := Gradients(e, x, norm);
      FloorTimes(Abs(e), x[k], norm, r[k]);
      Distribute(DotNat(q, r, k), q[k] * r[k], norm);
      Distribute(DotNat(x, r, k), x[k] * r[k], Abs(e));
    }
  }

  lemma LowBelow(x: nat)
    ensures Low64(x) <= x
  {
  }

  lemma FloorTimes(a: nat, v: nat, norm: nat, y: nat)
    requires norm > 0
    ensures Low64(a * v) / norm * y * norm <= a * (v * y)
  {
    var q := Low64(a * v) / norm;
    LowBelow(a * v);
    ProductMonotone(q * norm, y, a * v, y);
    assert q * y * norm == q * norm * y;
    assert a * v * y == a * (v * y);
  }

  lemma Distribute(a: nat, b: nat, c: nat)
    ensures (a + b) * c == a * c + b * c
    ensures c * (a + b) == c * a + c * b
  {
  }

  /** Twice a mixed product is at most the sum of both squares. */
  lemma {:induction false} MixedBelowSquares(x: seq<nat>, r: seq<nat>, n: nat)
    requires n <= |x| == |r|
    ensures 2 * DotNat(x, r, n) <= Sum(Square, x[..n]) + Sum(Square, r[..n])
  {
    if n > 0 {
      var k := n - 1;
      MixedBelowSquares(x, r, k);
      assert x[..n][..k] == x[..k] && r[..n][..k] == r[..k];
      SquareOfDifference(x[k], r[k]);
    }
  }

  lemma SquareOfDifference(a: int, b: int)
    ensures 2 * (a * b) <= a * a + b * b
  {
    var d := a - b;
    assert d * d == d * a - d * b;
    assert d * a == a * a - a * b && d * b == a * b - b * b;
    assert 0 <= d * d;
  }

  lemma CancelFactor(a: nat, b: nat, norm: nat)
    requires norm > 0 && a * norm <= b * norm
    ensures a <= b
  {
    if a > b { ProductMonotone(b + 1, norm, a, norm); }
  }

  /** The integer gradient never carries the whole history further than this multiple of the error. */
  lemma GradientGain(e: int, x: seq<nat>, ri: nat)
    requires ri < |x| && NormSq(x) > 0
    ensures DotNat(Gradients(e, x, NormSq(x)), Recent(x, ri), |x|) <= Abs(e) * (0x1_0000 + 0xFFFF * |x|)
  {
    var norm, r := NormSq(x), Recent(x, ri);
    GradientsBounded(e, x, norm, r, |x|);
    MixedBelowNorm(x, ri);
    GainArithmetic(DotNat(Gradients(e, x, norm), r, |x|), DotNat(x, r, |x|), Abs(e), norm, 0xFFFF * |x|);
  }

  lemma MixedBelowNorm(x: seq<nat>, ri: nat)
    requires ri < |x|
    ensures DotNat(x, Recent(x, ri), |x|) <= 0x1_0000 * NormSq(x) + 0xFFFF * |x|
  {
    var r := Recent(x, ri);
    MixedBelowSquares(x, r, |x|);
    assert x[..|x|] == x && r[..|x|] == r;
    SumRecent(Square, x, ri);
    SquaresBelowNorm(x);
  }

  lemma GainArithmetic(dq: nat, xr: nat, a: nat, norm: nat, c: nat)
    requires norm > 0 && dq * norm <= a * xr && xr <= 0x1_0000 * norm + c
    ensures dq <= a * (0x1_0000 + c)
  {
    var gain := 0x1_0000 + c;
    ProductMonotone(c, 1, c, norm);
    Distribute(0x1_0000, c, norm);
    ProductMonotone(a, xr, a, gain * norm);
    assert a * (gain * norm) == a * gain * norm;
    CancelFactor(dq, a * gain, norm);
  }

  /** Predicting again on the history just learnt from, the prediction has moved towards the error, or not at all, and
      by at most 0.393211 of it. */
  predicate MovesTowards(w: seq<real>, x: seq<nat>, e: int, ri: nat)
    requires |w| == |x| && ri < |x|
  {
    var shift := Predict(x, Update(w, x, e), ri) - Predict(x, w, ri);
    && (e >= 0 ==> 0.0 <= shift <= 0.393211 * e as real)
    && (e <= 0 ==> 0.393211 * e as real <= shift <= 0.0)
  }

  /** The shift of the prediction is a multiple of the learning rate, in the direction of the error. */
  lemma ShiftIsGain(w: seq<real>, x: seq<nat>, e: int, ri: nat)
    requires |w| == |x| && ri < |x| && Norm64(x) > 0
    ensures Predict(x, Update(w, x, e), ri) - Predict(x, w, ri)
            == Step(e, DotNat(Gradients(e, x, Norm64(x)), Recent(x, ri), |x|))
  {
    DotOfUpdate(w, Update(w, x, e), x, e, Norm64(x), Recent(x, ri), |x|);
  }

  /** Main result: if the norm fits 64 bits, as it does for samples below 2^32, no update overshoots, whatever the
      error, although the update pairs weights with raw slots and the prediction pairs them with ages. */
  lemma UpdateNeverOvershoots(w: seq<real>, x: seq<nat>, e: int, ri: nat)
    requires |w| == |x| == HIST_SIZE && ri < |x| && NormSq(x) < U64
    ensures MovesTowards(w, x, e, ri)
    ensures e != 0 ==> AbsReal(Predict(x, Update(w, x, e), ri) - Predict(x, w, ri)) < 0.394 * Abs(e) as real
  {
    LowIdentity(NormSq(x));
    var norm := NormSq(x);
    if norm > 0 {
      var gain := DotNat(Gradients(e, x, norm), Recent(x, ri), |x|);
      ShiftIsGain(w, x, e, ri);
      GradientGain(e, x, ri);
      assert gain <= 393211 * Abs(e);
      hide Predict, Update, DotNat, Gradients;
    }
  }

  // ---------------------------------------------------------------- weights drift by bounded steps

  lemma SampleBelowNorm(v: nat, norm: nat)
    requires norm > 0 && ShiftedSquare(v) <= norm
    ensures v <= 362 * norm
  {
    if v >= 363 {
      var d := v - 363;
      SquareOfSum(363, d);
      assert d * d >= 0;
      assert v * v == 131769 + 726 * d + d * d;
      assert 0x1_0000 * norm > v * v - 0x1_0000;
    }
  }

  lemma SquareOfSum(a: int, b: int)
    ensures (a + b) * (a + b) == a * a + 2 * a * b + b * b
  {
  }

  /** One update moves weight i in the direction of the error, by at most 362 times the error times the learning rate.
      */
  predicate DriftsWithin(w: seq<real>, x: seq<nat>, e: int, i: nat)
    requires |w| == |x| && i < |w|
  {
    var drift := Update(w, x, e)[i] - w[i];
    && (e >= 0 ==> 0.0 <= drift <= 362.0 * e as real * LRATE)
    && (e <= 0 ==> 362.0 * e as real * LRATE <= drift <= 0.0)
  }

  lemma DriftIff(w: seq<real>, x: seq<nat>, e: int, i: nat)
    requires |w| == |x| && i < |w|
    ensures DriftsWithin(w, x, e, i) <==> Norm64(x) == 0 || Gradient(e, x[i], Norm64(x)) <= 362 * Abs(e)
  {
    hide Gradient, Norm64;
  }

  /** If the norm fits 64 bits, every history entry is at most 362 times the norm, so the drift of every weight is
      bounded, whatever the error. */
  lemma DriftBounded(w: seq<real>, x: seq<nat>, e: int, i: nat)
    requires |w| == |x| && i < |w| && NormSq(x) < U64
    ensures Norm64(x) > 0 ==> x[i] <= 362 * Norm64(x)
    ensures DriftsWithin(w, x, e, i)
  {
    LowIdentity(NormSq(x));
    var norm := NormSq(x);
    DriftIff(w, x, e, i);
    if norm > 0 {
      NormCoversTerm(x, i);
      SampleBelowNorm(x[i], norm);
      GradientBelow(e, x[i], norm);
    }
  }

  lemma GradientBelow(e: int, v: nat, norm: nat)
    requires norm > 0 && v <= 362 * norm
    ensures Gradient(e, v, norm) <= 362 * Abs(e)
  {
    var a, g := Abs(e), Gradient(e, v, norm);
    LowBelow(a * v);
    assert g * norm <= a * v;
    ProductMonotone(a, v, a, 362 * norm);
    assert a * (362 * norm) == 362 * a * norm;
    CancelFactor(g, 362 * a, norm);
  }

  /** 362 cannot be lowered: a history holding one sample of 362 has norm one, and its weight moves by exactly 362
      millionths of the error, with the sign of the error. */
  lemma DriftBoundIsTight(w: seq<real>, e: int)
    requires |w| == HIST_SIZE
    ensures var x := [362, 0, 0, 0, 0];
            && Norm64(x) == 1
            && (362 * Abs(e) < U64 ==> Update(w, x, e)[0] == w[0] + 0.000362 * e as real)
  {
    var x := [362, 0, 0, 0, 0];
    NormOfSingle(362);
    if 362 * Abs(e) < U64 {
      LowIdentity(362 * Abs(e));
      assert Gradient(e, x[0], 1) == 362 * Abs(e);
    }
  }

  /** The update is skipped, or the low halves of all products are below the norm. */
  predicate Idle(x: seq<nat>, e: int)
  {
    Norm64(x) == 0 || forall i :: 0 <= i < |x| ==> Low64(Abs(e) * x[i]) < Norm64(x)
  }

  /** An update leaves the weights alone exactly when it is idle. */
  lemma UpdateIdleIff(w: seq<real>, x: seq<nat>, e: int)
    requires |w| == |x|
    ensures Update(w, x, e) == w <==> Idle(x, e)
  {
    var norm, w' := Norm64(x), Update(w, x, e);
    if norm > 0 {
      forall i | 0 <= i < |x|
        ensures w'[i] == w[i] <==> Low64(Abs(e) * x[i]) < norm
      {
        FloorZeroIff(Low64(Abs(e) * x[i]), norm);
      }
      assert w' == w <==> forall i :: 0 <= i < |x| ==> w'[i] == w[i];
    }
  }

  lemma FloorZeroIff(a: nat, norm: nat)
    requires norm > 0
    ensures a / norm == 0 <==> a < norm
  {
    if a < norm {
    } else {
      assert a / norm >= 1;
    }
  }
}
