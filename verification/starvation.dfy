/** No core starves: rejected passes halve weights, and only so many halvings can still produce a negative estimate. */
module Starvation {
  import opened Machine
  import opened Lms
  import opened LmsTheorems
  import opened Units
  import opened Split
  import opened Controller

  // ---------------------------------------------------------------- the size of a prediction

  /** The L1 norm of the first n weights. */
  function L1(w: seq<real>, n: nat): (s: real)
    requires n <= |w|
    ensures s >= 0.0
  {
    if n == 0 then 0.0 else L1(w, n - 1) + AbsReal(w[n - 1])
  }

  lemma {:induction false} HalvingHalvesL1(w: seq<real>, n: nat)
    requires n <= |w|
    ensures L1(Halve(w), n) == L1(w, n) / 2.0
  {
    if n > 0 { HalvingHalvesL1(w, n - 1); }
  }

  lemma WeightedBound(w: real, v: nat, b: nat)
    requires v <= b
    ensures AbsReal(Weighted(w, v)) <= Weighted(AbsReal(w), b)
  {
    assert AbsReal(w) * v as real <= AbsReal(w) * b as real;
  }

  /** With samples up to b, a prediction is at most b times the L1 norm of its weights. */
  lemma {:induction false} DotBound(w: seq<real>, x: seq<nat>, n: nat, b: nat)
    requires n <= |w| && n <= |x|
    requires AllBelow(x, b + 1)
    ensures AbsReal(Dot(w, x, n)) <= Weighted(L1(w, n), b)
  {
    if n > 0 {
      DotBound(w, x, n - 1, b);
      WeightedBound(w[n - 1], x[n - 1], b);
      WeightedIsLinear(L1(w, n - 1), AbsReal(w[n - 1]), 1.0, b);
      hide Weighted;
    }
  }

  // ---------------------------------------------------------------- counting halvings

  /** How often x must be halved to fall below a positive bound. */
  function Halvings(x: real, least: real): nat
    requires least >= 1.0
    decreases x.Floor
  {
    if x < least then 0 else 1 + Halvings(x / 2.0, least)
  }

  function Doubled(x: real, n: nat): real
    decreases n
  {
    if n == 0 then x else Doubled(2.0 * x, n - 1)
  }

  /** The count is logarithmic: n halvings suffice exactly when x is below 2^n times the bound. */
  lemma {:induction false} HalvingsIsLogarithm(x: real, least: real, n: nat)
    requires least >= 1.0
    ensures Halvings(x, least) <= n <==> x < Doubled(least, n)
    decreases n
  {
    if n > 0 {
      HalvingsIsLogarithm(x / 2.0, least, n - 1);
      DoubledOutside(least, n - 1);
      DoubledGrows(least, n);
    }
  }

  lemma {:induction false} DoubledOutside(x: real, n: nat)
    ensures Doubled(2.0 * x, n) == 2.0 * Doubled(x, n)
    decreases n
  {
    if n > 0 { DoubledOutside(2.0 * x, n - 1); }
  }

  lemma {:induction false} DoubledGrows(x: real, n: nat)
    requires x >= 1.0
    ensures x <= Doubled(x, n)
    decreases n
  {
    if n > 0 { DoubledGrows(2.0 * x, n - 1); }
  }

  /** The rejections that a channel's weights can still cause while its samples stay at or below b. */
  function Level(ch: Channel, initialBw: nat, b: nat): nat
  {
    Halvings(Weighted(L1(ch.weights, HIST_SIZE), b), (initialBw + 1) as real)
  }

  // ---------------------------------------------------------------- one pass

  /** Both histories hold samples up to b. */
  predicate BoundedBy(c: Core, b: nat) { AllBelow(c.read.hist, b + 1) && AllBelow(c.write.hist, b + 1) }

  predicate SampleBelow(ch: Channel, count: nat, b: nat) { Metered(ch, count).used <= b }

  /** A negative estimate takes weights that are large enough for one more halving. */
  lemma NegativeEstimateNeedsLevel(ch: Channel, ri: nat, initialBw: nat, b: nat)
    requires ri < HIST_SIZE && AllBelow(ch.hist, b + 1) && ch.used <= b
    requires Estimated(ch, ri, initialBw).next < 0
    ensures Level(ch, initialBw, b) == 1 + Level(ScaledDown(Estimated(ch, ri, initialBw)), initialBw, b)
  {
    var h := ch.hist[ri := ch.used];
    DotBound(ch.weights, Recent(h, ri), HIST_SIZE, b);
    NegativeTruncation(Predict(h, ch.weights, ri), initialBw);
    HalvingHalvesL1(ch.weights, HIST_SIZE);
    WeightedIsLinear(L1(ch.weights, HIST_SIZE), L1(ch.weights, HIST_SIZE), -0.5, b);
    hide Weighted, L1, Dot, Truncate;
  }

  lemma NegativeTruncation(x: real, initialBw: nat)
    ensures Truncate(x) + initialBw < 0 <==> x <= -((initialBw + 1) as real)
    ensures Truncate(x) + initialBw < 0 ==> (initialBw + 1) as real <= AbsReal(x)
  {
  }

  /** A channel's pass is rejected exactly when the prediction reaches one below the negated initial bandwidth: the
      truncation towards zero forgives everything above. */
  lemma RejectedIff(ch: Channel, ri: nat, initialBw: nat)
    requires ri < HIST_SIZE
    ensures var e := Estimated(ch, ri, initialBw);
            e.next < 0 <==> Predict(e.hist, e.weights, ri) <= -((initialBw + 1) as real)
  {
    NegativeTruncation(Predict(ch.hist[ri := ch.used], ch.weights, ri), initialBw);
  }

  /** A rejected pass takes one level from the read or from the write weights and nothing from the other. */
  lemma RejectionCostsOneLevel(c: Core, readEvents: nat, writeEvents: nat, t: nat, b: nat)
    requires RegulationTime(t) && BoundedBy(c, b)
    requires SampleBelow(c.read, EventsToMb(readEvents, t), b) && SampleBelow(c.write, EventsToMb(writeEvents, t), b)
    ensures var (c', v) := Pass(c, readEvents, writeEvents, t);
            && BoundedBy(c', b) && c'.initialBw == c.initialBw
            && (!v.Committed? ==> Level(c.read, c.initialBw, b) + Level(c.write, c.initialBw, b)
                                  == 1 + Level(c'.read, c.initialBw, b) + Level(c'.write, c.initialBw, b))
            && (v.Committed? ==> !c'.throttled)
  {
    hide EventsToMb, MbToEvents, Predict, Update, Allocate, Sub64, Halvings, L1;
    var r, w := Metered(c.read, EventsToMb(readEvents, t)), Metered(c.write, EventsToMb(writeEvents, t));
    if Estimated(r, c.ri, c.initialBw).next < 0 {
      NegativeEstimateNeedsLevel(r, c.ri, c.initialBw, b);
    } else if Estimated(w, c.ri, c.initialBw).next < 0 {
      NegativeEstimateNeedsLevel(w, c.ri, c.initialBw, b);
    }
  }

  /** Weights and samples that keep predictions inside a C int: the condition under which a pass is well defined, and
      which rejections preserve, since they halve the weights. */
  lemma BoundedWeightsFit(ch: Channel, ri: nat, count: nat, b: nat)
    requires ri < HIST_SIZE && AllBelow(ch.hist, b + 1) && SampleBelow(ch, count, b) && b < S32
    requires Weighted(L1(ch.weights, HIST_SIZE), b) < 2147483648.0
    ensures SampleFits(ch, ri, count)
  {
    var h := Metered(ch, count).hist[ri := Metered(ch, count).used];
    DotBound(ch.weights, Recent(h, ri), HIST_SIZE, b);
  }

  // ---------------------------------------------------------------- runs

  /** The number of master passes in a run. */
  function Passes(run: seq<CoreEvent>): nat
  {
    if run == [] then 0 else Passes(run[..|run| - 1]) + if run[|run| - 1].Control? then 1 else 0
  }

  /** Every usage metered in the run is at most b. */
  ghost predicate RunBelow(c: Core, run: seq<CoreEvent>, t: nat, b: nat)
    requires RegulationTime(t)
  {
    forall n | 0 <= n < |run| && run[n].Control? :: EventBelow(CoreRun(c, run[..n], t), run[n], t, b)
  }

  predicate EventBelow(c: Core, e: CoreEvent, t: nat, b: nat)
    requires RegulationTime(t) && e.Control?
  {
    && SampleBelow(c.read, EventsToMb(e.readEvents, t), b)
    && SampleBelow(c.write, EventsToMb(e.writeEvents, t), b)
  }

  /** Every pass of the run is rejected. */
  ghost predicate AllRejected(c: Core, run: seq<CoreEvent>, t: nat)
    requires RegulationTime(t)
  {
    forall n | 0 <= n < |run| :: !Commits(CoreRun(c, run[..n], t), run[n], t)
  }

  lemma PrefixRuns(c: Core, run: seq<CoreEvent>, t: nat, b: nat)
    requires RegulationTime(t) && run != []
    ensures var k := |run| - 1;
            && (RunBelow(c, run, t, b) ==> RunBelow(c, run[..k], t, b))
            && (AllRejected(c, run, t) ==> AllRejected(c, run[..k], t))
  {
    var k := |run| - 1;
    assert forall n :: 0 <= n < k ==> run[..k][..n] == run[..n];
  }

  /** While every pass is rejected, the passes eat up the levels. */
  lemma {:induction false} RejectionsAreFinite(c: Core, run: seq<CoreEvent>, t: nat, b: nat)
    requires RegulationTime(t) && BoundedBy(c, b) && RunBelow(c, run, t, b) && AllRejected(c, run, t)
    ensures var c' := CoreRun(c, run, t);
            && BoundedBy(c', b) && c'.initialBw == c.initialBw
            && Passes(run) + Level(c'.read, c.initialBw, b) + Level(c'.write, c.initialBw, b)
               == Level(c.read, c.initialBw, b) + Level(c.write, c.initialBw, b)
  {
    if run != [] {
      hide Pass, Level, SampleBelow;
      var k := |run| - 1;
      PrefixRuns(c, run, t, b);
      RejectionsAreFinite(c, run[..k], t, b);
      var before, e := CoreRun(c, run[..k], t), run[k];
      assert !Commits(before, e, t);
      if e.Control? {
        assert EventBelow(before, e, t, b);
        RejectionCostsOneLevel(before, e.readEvents, e.writeEvents, t, b);
      } else {
        OtherEventsKeepLevels(before, e, t, b);
      }
    }
  }

  lemma OtherEventsKeepLevels(c: Core, e: CoreEvent, t: nat, b: nat)
    requires RegulationTime(t) && !e.Control?
    ensures var c' := CoreStep(c, e, t);
            && BoundedBy(c', b) == BoundedBy(c, b) && c'.initialBw == c.initialBw
            && Level(c'.read, c.initialBw, b) == Level(c.read, c.initialBw, b)
            && Level(c'.write, c.initialBw, b) == Level(c.write, c.initialBw, b)
  {
  }

  /** Main result for one core: among any kr + kw + 1 passes with samples up to b, whatever else happens between
      them, one commits and releases the core; kr and kw are the halving counts of the two weight vectors. */
  lemma CoreIsReleased(c: Core, run: seq<CoreEvent>, t: nat, b: nat) returns (n: nat)
    requires RegulationTime(t) && BoundedBy(c, b) && RunBelow(c, run, t, b)
    requires Passes(run) > Level(c.read, c.initialBw, b) + Level(c.write, c.initialBw, b)
    ensures n < |run| && Commits(CoreRun(c, run[..n], t), run[n], t)
    ensures !CoreRun(c, run[..n + 1], t).throttled
  {
    hide Pass, Level, RunBelow, BoundedBy, Commits, CoreRun, Passes;
    if AllRejected(c, run, t) {
      RejectionsAreFinite(c, run, t, b);
      assert false;
    }
    n :| 0 <= n < |run| && Commits(CoreRun(c, run[..n], t), run[n], t);
    CommitReleases(CoreRun(c, run[..n], t), run[n], t);
    OneMoreStep(c, run, n, t);
  }

  lemma OneMoreStep(c: Core, run: seq<CoreEvent>, n: nat, t: nat)
    requires RegulationTime(t) && n < |run|
    ensures CoreRun(c, run[..n + 1], t) == CoreStep(CoreRun(c, run[..n], t), run[n], t)
  {
    assert run[..n + 1][..n] == run[..n];
  }
}
