/** Exactly when the u64 arithmetic of the weight update keeps its promises: histories of metered usages, with and
    without the sample of a pass that crossed a window of the C int. */
module LearningLimits {
  import opened Machine
  import opened Rounding
  import opened Lms
  import opened LmsTheorems
  import opened Units
  import opened Split
  import opened Controller
  import opened Metering

  /** Every sample is the unsigned difference of two C ints, as every metered usage is. */
  predicate MeteredHistory(x: seq<nat>) { forall i :: 0 <= i < |x| ==> IntDifference(x[i]) }

  predicate MeteredChannel(ch: Channel) { MeteredHistory(ch.hist) && IntDifference(ch.used) }

  lemma PassKeepsMetered(c: Core, e: CoreEvent, t: nat, side: Side)
    requires RegulationTime(t) && e.Control? && MeteredHistory(ChannelOf(c, side).hist)
    requires IntDifference(ChannelOf(CoreStep(c, e, t), side).used)
    ensures MeteredChannel(ChannelOf(CoreStep(c, e, t), side))
  {
    hide EventsToMb, MbToEvents, Predict, Update, Allocate, Halve, Sub64, IntDifference;
  }

  lemma OtherEventsKeepMetered(c: Core, e: CoreEvent, t: nat, side: Side)
    requires RegulationTime(t) && !e.Control? && MeteredChannel(ChannelOf(c, side))
    ensures MeteredChannel(ChannelOf(CoreStep(c, e, t), side))
  {
  }

  lemma FreshIsMetered(initialBw: nat, maxBw: nat, t: nat, side: Side)
    requires RegulationTime(t)
    ensures var ch := ChannelOf(FreshCore(initialBw, maxBw, t), side);
            MeteredChannel(ch) && ch.countNew == EventsToMb(0, t)
  {
    NothingCounted(t);
    hide EventsToMb, FirstBudget, InitialWeights;
  }

  /** In every run of a fresh core, whatever the counts, every sample in its histories is the unsigned difference of
      two C ints: below 2^32, or within 2^32 of 2^64. */
  lemma {:induction false} EveryHistoryIsMetered(
      initialBw: nat, maxBw: nat, run: seq<CoreEvent>, t: nat, side: Side)
    requires RegulationTime(t)
    ensures var ch := ChannelOf(CoreRun(FreshCore(initialBw, maxBw, t), run, t), side);
            MeteredChannel(ch) && ch.countNew == EventsToMb(LastReading(run, side, 0), t)
  {
    hide FreshCore, CoreStep, EventsToMb, MeteredUse, MeteredChannel;
    if run == [] {
      FreshIsMetered(initialBw, maxBw, t, side);
    } else {
      var k := |run| - 1;
      EveryHistoryIsMetered(initialBw, maxBw, run[..k], t, side);
      var before, last := CoreRun(FreshCore(initialBw, maxBw, t), run[..k], t), LastReading(run[..k], side, 0);
      if run[k].Control? {
        PassMeters(before, run[k], side, t, last);
        MeteredUseIsIntDifference(last, CountOf(run[k], side), t);
        assert MeteredHistory(ChannelOf(before, side).hist) by { MeteredParts(ChannelOf(before, side)); }
        PassKeepsMetered(before, run[k], t, side);
      } else {
        OtherEventsKeepMeters(before, run[k], side, t);
        OtherEventsKeepMetered(before, run[k], t, side);
      }
    }
  }

  lemma MeteredParts(ch: Channel)
    requires MeteredChannel(ch)
    ensures MeteredHistory(ch.hist)
  {
  }

  // ---------------------------------------------------------------- the update over unbounded integers

  /** The update as it would be if neither the norm nor the products wrapped. */
  function ExactUpdate(w: seq<real>, x: seq<nat>, e: int): (r: seq<real>)
    requires |w| == |x|
    ensures |r| == |w|
  {
    var n := NormSq(x);
    if n == 0 then w
    else seq(|w|, i requires 0 <= i < |w| => w[i] + Sign(e) as real * ((Abs(e) * x[i] / n) as real * LRATE))
  }

  /** A product that wraps loses more than one norm. */
  lemma WrappedGradient(p: nat, norm: nat)
    requires 0 < norm < U64
    ensures Low64(p) / norm == p / norm <==> p < U64
  {
    if p < U64 {
      LowIdentity(p);
    } else {
      var q := Low64(p) / norm;
      assert Low64(p) <= p - U64;
      FloorIff(Low64(p), norm, q);
      FloorIff(p, norm, q + 1);
      SumOfMultiples(q, 1, norm);
    }
  }

  lemma WeightExactIff(w: seq<real>, x: seq<nat>, e: int, i: nat)
    requires |w| == |x| && i < |w| && 0 < NormSq(x) < U64
    ensures Update(w, x, e)[i] == ExactUpdate(w, x, e)[i] <==> Abs(e) * x[i] < U64
  {
    LowIdentity(NormSq(x));
    WrappedGradient(Abs(e) * x[i], NormSq(x));
    var g, h := Gradient(e, x[i], NormSq(x)), Abs(e) * x[i] / NormSq(x);
    assert Sign(e) as real * (g as real * LRATE) == Sign(e) as real * (h as real * LRATE) <==> g == h;
  }

  /** If the norm fits 64 bits, the code's update is the update over unbounded integers exactly when it is skipped or
      every product fits too. */
  lemma UpdateExactIff(w: seq<real>, x: seq<nat>, e: int)
    requires |w| == |x| && NormSq(x) < U64
    ensures Update(w, x, e) == ExactUpdate(w, x, e)
            <==> NormSq(x) == 0 || forall i :: 0 <= i < |x| ==> Abs(e) * x[i] < U64
  {
    LowIdentity(NormSq(x));
    if NormSq(x) > 0 {
      forall i: nat | i < |x|
        ensures Update(w, x, e)[i] == ExactUpdate(w, x, e)[i] <==> Abs(e) * x[i] < U64
      {
        WeightExactIff(w, x, e, i);
      }
      hide Update, ExactUpdate;
      assert Update(w, x, e) == ExactUpdate(w, x, e)
        <==> forall i: nat :: i < |x| ==> Update(w, x, e)[i] == ExactUpdate(w, x, e)[i];
    }
  }

  // ---------------------------------------------------------------- when updates overshoot

  lemma {:induction false} DotNatCoversTerm(q: seq<nat>, x: seq<nat>, n: nat, i: nat)
    requires i < n <= |q| && n <= |x|
    ensures q[i] * x[i] <= DotNat(q, x, n)
  {
    if i < n - 1 { DotNatCoversTerm(q, x, n - 1, i); }
  }

  /** For every slot and weight there is a ring index at which that weight meets that slot. */
  lemma MeetingIndex(i: nat, m: nat) returns (ri: nat)
    requires i < HIST_SIZE && m < HIST_SIZE
    ensures ri < HIST_SIZE && Slot(ri, i, HIST_SIZE) == m
  {
    ri := (i + m) % HIST_SIZE;
  }

  /** A weight that moves at all, and meets a sample far above the error, carries the prediction too far. */
  lemma MovedWeightOvershoots(w: seq<real>, x: seq<nat>, e: int, i: nat, m: nat) returns (ri: nat)
    requires |w| == |x| == HIST_SIZE && i < HIST_SIZE && m < HIST_SIZE
    requires Norm64(x) > 0 && Low64(Abs(e) * x[i]) >= Norm64(x) && 393211 * Abs(e) < x[m]
    ensures ri < HIST_SIZE && !MovesTowards(w, x, e, ri)
  {
    ri := MeetingIndex(i, m);
    var norm := Norm64(x);
    var q, r := Gradients(e, x, norm), Recent(x, ri);
    FloorZeroIff(Low64(Abs(e) * x[i]), norm);
    DotNatCoversTerm(q, r, HIST_SIZE, i);
    ProductMonotone(1, x[m], q[i], r[i]);
    ShiftIsGain(w, x, e, ri);
    hide Predict, Update, DotNat, Gradients, Gradient, Recent, Norm64, Slot, Low64;
    assert DotNat(q, r, HIST_SIZE) > 393211 * Abs(e);
  }

  lemma NoCrossingOrFits(x: seq<nat>)
    requires |x| == HIST_SIZE
    ensures AllBelow(x, U32) ==> NormSq(x) < U64
  {
    if AllBelow(x, U32) { NormFits(x); }
  }

  /** An idle update does not move the prediction. */
  lemma IdleMovesNothing(w: seq<real>, x: seq<nat>, e: int, ri: nat)
    requires |w| == |x| && ri < |x| && Idle(x, e)
    ensures MovesTowards(w, x, e, ri)
  {
    UpdateIdleIff(w, x, e);
    hide Predict, Update, Idle;
  }

  /** Main result: on a history of metered usages no update by an error below 2^45, which covers every error of a
      well-defined pass, overshoots exactly when no sample comes from a pass that crossed a window backwards, or the
      update is idle. */
  lemma UpdateNeverOvershootsIff(x: seq<nat>, e: int)
    requires |x| == HIST_SIZE && MeteredHistory(x) && Abs(e) < 0x2000_0000_0000
    ensures (forall w: seq<real>, ri: nat | |w| == HIST_SIZE && ri < HIST_SIZE :: MovesTowards(w, x, e, ri))
            <==> AllBelow(x, U32) || Idle(x, e)
  {
    hide MovesTowards;
    if AllBelow(x, U32) || Idle(x, e) {
      NoCrossingOrFits(x);
      forall w: seq<real>, ri: nat | |w| == HIST_SIZE && ri < HIST_SIZE
        ensures MovesTowards(w, x, e, ri)
      {
        if Idle(x, e) { IdleMovesNothing(w, x, e, ri); } else { UpdateNeverOvershoots(w, x, e, ri); }
      }
    } else {
      var m :| 0 <= m < |x| && !(x[m] < U32);
      var i :| 0 <= i < |x| && !(Low64(Abs(e) * x[i]) < Norm64(x));
      var w := InitialWeights();
      var ri := MovedWeightOvershoots(w, x, e, i, m);
      assert !MovesTowards(w, x, e, ri);
    }
  }

  /** The error of a core inside its ranges. */
  lemma ErrorIsSmall(used: nat, prev: int)
    requires IntDifference(used) && Abs(prev) < U32
    ensures Abs(Error(used, prev)) < 0x2_0000_0000
  {
  }

  /** The history and the error from which one side of a core would learn in its next pass. */
  function Sampled(c: Core, side: Side, events: nat, t: nat): Channel
    requires RegulationTime(t)
  {
    Estimated(Metered(ChannelOf(c, side), EventsToMb(events, t)), c.ri, c.initialBw)
  }

  lemma SampledHistory(c: Core, side: Side, last: nat, events: nat, t: nat)
    requires RegulationTime(t) && MeteredChannel(ChannelOf(c, side))
    requires ChannelOf(c, side).countNew == EventsToMb(last, t)
    ensures var ch := Sampled(c, side, events, t);
            MeteredHistory(ch.hist) && IntDifference(ch.used) && ch.prev == ChannelOf(c, side).prev
  {
    hide EventsToMb, Predict, IntDifference;
    MeteredUseIsIntDifference(last, events, t);
    assert Sampled(c, side, events, t).used == MeteredUse(last, events, t);
  }

  /** The same for every pass of every run of a fresh core whose previous estimate fits 32 bits. */
  lemma NextLearningOvershootsIff(initialBw: nat, maxBw: nat, run: seq<CoreEvent>, t: nat, side: Side, events: nat)
    requires RegulationTime(t)
    requires Abs(ChannelOf(CoreRun(FreshCore(initialBw, maxBw, t), run, t), side).prev) < U32
    ensures var ch := Sampled(CoreRun(FreshCore(initialBw, maxBw, t), run, t), side, events, t);
            var e := Error(ch.used, ch.prev);
            (forall w: seq<real>, ri: nat | |w| == HIST_SIZE && ri < HIST_SIZE :: MovesTowards(w, ch.hist, e, ri))
            <==> AllBelow(ch.hist, U32) || Idle(ch.hist, e)
  {
    hide FreshCore, CoreRun, EventsToMb, LastReading, MeteredChannel, MeteredHistory;
    hide MovesTowards, Idle, Error, Sampled;
    var c := CoreRun(FreshCore(initialBw, maxBw, t), run, t);
    EveryHistoryIsMetered(initialBw, maxBw, run, t, side);
    SampledHistory(c, side, LastReading(run, side, 0), events, t);
    var ch := Sampled(c, side, events, t);
    ErrorIsSmall(ch.used, ch.prev);
    UpdateNeverOvershootsIff(ch.hist, Error(ch.used, ch.prev));
  }

  // ---------------------------------------------------------------- when weights drift too far

  /** What the drift bound takes of one sample, given the norm. */
  predicate WithinDrift(v: nat, norm: nat) { v <= 362 * norm || (v >= U32 && v < 363 * norm) }

  /** A sample of a crossing pass lies so close to 2^64 that already twice the error wraps below it. */
  lemma CrossingGradient(e: int, v: nat, norm: nat)
    requires norm > 0 && U64 - U32 < v < U64 && v < 363 * norm
    ensures Gradient(e, v, norm) <= 362 * Abs(e)
  {
    var a, p := Abs(e), Low64(Abs(e) * v);
    if a == 0 {
      FloorIff(p, norm, 1);
    } else if a == 1 {
      FloorIff(p, norm, 363);
    } else {
      FloorIff(p, norm, 725);
    }
  }

  lemma WithinDriftIsEnough(e: int, v: nat, norm: nat)
    requires norm > 0 && IntDifference(v) && WithinDrift(v, norm)
    ensures Gradient(e, v, norm) <= 362 * Abs(e)
  {
    if v <= 362 * norm { GradientBelow(e, v, norm); } else { CrossingGradient(e, v, norm); }
  }

  /** An error that carries the weight of a sample outside the bound too far: one for the sample of a crossing pass, as
      large as the norm for any other. */
  lemma OutsideDriftMovesTooFar(v: nat, norm: nat) returns (e: nat)
    requires 0 < norm && IntDifference(v) && !WithinDrift(v, norm)
    ensures Gradient(e, v, norm) > 362 * e
  {
    if v < U32 {
      e := norm;
      ProductMonotone(norm, v, 0x100_0000, v);
      LowIdentity(norm * v);
      FloorIff(norm * v, norm, v);
    } else {
      e := 1;
      LowIdentity(v);
      FloorIff(v, norm, 363);
    }
  }

  /** Main result: on a history of metered usages every update by every error moves every weight by at most 362 times
      the error times the learning rate exactly when the update is skipped or every sample is within 362 times the u64
      norm, samples of crossing passes below 363 times. */
  lemma DriftBoundedIff(x: seq<nat>)
    requires MeteredHistory(x)
    ensures (forall w: seq<real>, e: int, i: nat | |w| == |x| && i < |x| :: DriftsWithin(w, x, e, i))
            <==> Norm64(x) == 0 || forall i :: 0 <= i < |x| ==> WithinDrift(x[i], Norm64(x))
  {
    hide DriftsWithin, Gradient, WithinDrift, Norm64, IntDifference;
    if Norm64(x) == 0 || forall i :: 0 <= i < |x| ==> WithinDrift(x[i], Norm64(x)) {
      forall w: seq<real>, e: int, i: nat | |w| == |x| && i < |x|
        ensures DriftsWithin(w, x, e, i)
      {
        DriftIff(w, x, e, i);
        if Norm64(x) > 0 { WithinDriftIsEnough(e, x[i], Norm64(x)); }
      }
    } else {
      var i: nat :| i < |x| && !WithinDrift(x[i], Norm64(x));
      var e := OutsideDriftMovesTooFar(x[i], Norm64(x));
      var w := seq(|x|, k => 0.0);
      DriftIff(w, x, e, i);
      assert Abs(e) == e;
      assert !DriftsWithin(w, x, e, i);
    }
  }

  // ---------------------------------------------------------------- the sample of a crossing pass

  /** The usage that two readings five MB/s apart deliver across a window, with nothing else in the history. */
  const CROSSING: nat := 0xFFFF_FFFF_0000_0005

  lemma CrossingNorm()
    ensures Norm64([CROSSING, 0, 0, 0, 0]) == 3096224743161856
  {
    NormOfSingle(CROSSING);
  }

  lemma CrossingGradients()
    ensures Gradient(-4294967791, CROSSING, 3096224743161856) == 5957
    ensures Gradient(1, CROSSING, 3096224743161856) == 5957
  {
  }

  lemma CrossingGain()
    ensures var x := [CROSSING, 0, 0, 0, 0];
            Norm64(x) > 0 && DotNat(Gradients(-4294967791, x, Norm64(x)), Recent(x, 0), HIST_SIZE) >= 5957 * CROSSING
  {
    var x := [CROSSING, 0, 0, 0, 0];
    CrossingNorm();
    CrossingGradients();
    DotNatCoversTerm(Gradients(-4294967791, x, Norm64(x)), Recent(x, 0), HIST_SIZE, 0);
    hide DotNat, Gradient, Norm64;
  }

  lemma LargeGain(gain: nat)
    requires gain >= 5957 * CROSSING
    ensures Step(-4294967791, gain) < -4294967791000000.0
  {
  }

  lemma CrossingShift(w: seq<real>)
    requires |w| == HIST_SIZE
    ensures var x, e := [CROSSING, 0, 0, 0, 0], -4294967791;
            Predict(x, Update(w, x, e), 0) - Predict(x, w, 0) < -4294967791000000.0
  {
    hide Predict, Update, Norm64, Gradients, DotNat, Recent, Step;
    var x := [CROSSING, 0, 0, 0, 0];
    CrossingGain();
    ShiftIsGain(w, x, -4294967791, 0);
    LargeGain(DotNat(Gradients(-4294967791, x, Norm64(x)), Recent(x, 0), HIST_SIZE));
  }

  /** Learning from it, against a previous estimate of 500, carries the prediction a million times too far; and an error
      of one already carries its weight too far. */
  lemma CrossingPassOvershoots(w: seq<real>)
    requires |w| == HIST_SIZE
    ensures MeteredUse(35184372000, 35184372088, 1) == CROSSING
    ensures var x, e := [CROSSING, 0, 0, 0, 0], -4294967791;
            && e == ToS64(Low64(CROSSING - 500))
            && Predict(x, Update(w, x, e), 0) - Predict(x, w, 0) < 1000000.0 * e as real
            && !MovesTowards(w, x, e, 0) && !DriftsWithin(w, x, 1, 0)
  {
    hide MeteredUse, Predict, Update, Gradient, Norm64, DriftsWithin;
    MeteringWraps();
    CrossingNorm();
    CrossingGradients();
    CrossingShift(w);
    DriftIff(w, [CROSSING, 0, 0, 0, 0], 1, 0);
  }
}
