/** How far learning carries the weights over a run, and the runs in which every prediction stays inside a C int. */
module Drift {
  import opened Machine
  import opened Lms
  import opened LmsTheorems
  import opened Units
  import opened Split
  import opened Controller
  import opened Starvation

  /** The most that one update moves a weight while errors stay at or below a bound. */
  function Stride(bound: nat): real { 362.0 * bound as real * LRATE }

  /** n strides. */
  function Strides(n: nat, bound: nat): real { n as real * Stride(bound) }

  lemma StridesAdd(m: nat, n: nat, bound: nat)
    ensures Strides(m + n, bound) == Strides(m, bound) + Strides(n, bound)
    ensures 0.0 <= Strides(m, bound) <= Strides(m + n, bound)
    ensures Strides(1, bound) == Stride(bound)
  {
    assert Stride(bound) >= 0.0;
    assert (m + n) as real * Stride(bound) == m as real * Stride(bound) + n as real * Stride(bound);
  }

  // ---------------------------------------------------------------- one pass

  /** The error from which the weights would learn at this reading. */
  predicate ErrorBelow(ch: Channel, count: nat, bound: nat)
  {
    Abs(Error(Metered(ch, count).used, ch.prev)) <= bound
  }

  /** A pass learns from errors up to the bound. */
  predicate SteadyEvent(c: Core, e: CoreEvent, t: nat, bound: nat)
    requires RegulationTime(t)
  {
    e.Control? ==>
      ErrorBelow(c.read, EventsToMb(e.readEvents, t), bound) && ErrorBelow(c.write, EventsToMb(e.writeEvents, t), bound)
  }

  lemma LearnedWeight(ch: Channel, bound: nat, i: nat)
    requires Abs(Error(ch.used, ch.prev)) <= bound && AllBelow(ch.hist, U32) && i < HIST_SIZE
    ensures AbsReal(Learned(ch).weights[i]) <= AbsReal(ch.weights[i]) + Stride(bound)
  {
    var e := Error(ch.used, ch.prev);
    NormFits(ch.hist);
    DriftBounded(ch.weights, ch.hist, e, i);
    assert 362.0 * Abs(e) as real * LRATE <= Stride(bound);
    hide Update, Error;
  }

  lemma HalvedWeight(ch: Channel, i: nat)
    requires i < HIST_SIZE
    ensures AbsReal(ScaledDown(ch).weights[i]) <= AbsReal(ch.weights[i])
  {
  }

  /** How the weights of one side come out of a pass. */
  lemma PassWeights(c: Core, readEvents: nat, writeEvents: nat, t: nat, side: Side)
    requires RegulationTime(t)
    ensures var (c', v) := Pass(c, readEvents, writeEvents, t);
            var count := EventsToMb(if side.ReadSide? then readEvents else writeEvents, t);
            var ch, w := Estimated(Metered(ChannelOf(c, side), count), c.ri, c.initialBw), ChannelOf(c', side).weights;
            && ch.weights == ChannelOf(c, side).weights && ch.prev == ChannelOf(c, side).prev
            && ch.used == Metered(ChannelOf(c, side), count).used && ch.hist == ChannelOf(c, side).hist[c.ri := ch.used]
            && (v.Committed? ==> w == Learned(ch).weights)
            && (!v.Committed? ==> w == ch.weights || w == ScaledDown(ch).weights)
  {
    hide EventsToMb, MbToEvents, Predict, Update, Allocate, Halve, Sub64;
  }

  lemma SampleStored(h: seq<nat>, ri: nat, used: nat, b: nat)
    requires ri < |h| && AllBelow(h, b + 1) && used <= b < U32
    ensures AllBelow(h[ri := used], U32)
  {
  }

  lemma StepDrifts(c: Core, e: CoreEvent, t: nat, bound: nat, b: nat, side: Side, i: nat)
    requires RegulationTime(t) && SteadyEvent(c, e, t, bound) && i < HIST_SIZE
    requires BoundedBy(c, b) && b < U32 && (e.Control? ==> EventBelow(c, e, t, b))
    ensures AbsReal(ChannelOf(CoreStep(c, e, t), side).weights[i])
            <= AbsReal(ChannelOf(c, side).weights[i]) + Strides(if Commits(c, e, t) then 1 else 0, bound)
  {
    StridesAdd(0, 1, bound);
    if e.Control? {
      hide Pass, EventsToMb, Predict, Learned, ScaledDown, Stride, Strides, Sub64;
      PassWeights(c, e.readEvents, e.writeEvents, t, side);
      var count := EventsToMb(if side.ReadSide? then e.readEvents else e.writeEvents, t);
      var ch := Estimated(Metered(ChannelOf(c, side), count), c.ri, c.initialBw);
      SampleStored(ChannelOf(c, side).hist, c.ri, ch.used, b);
      hide BoundedBy, EventBelow, AllBelow, Error;
      LearnedWeight(ch, bound, i);
      HalvedWeight(ch, i);
    }
  }

  // ---------------------------------------------------------------- runs

  ghost predicate SteadyRun(c: Core, run: seq<CoreEvent>, t: nat, bound: nat)
    requires RegulationTime(t)
  {
    forall n | 0 <= n < |run| :: SteadyEvent(CoreRun(c, run[..n], t), run[n], t, bound)
  }

  lemma SteadyPrefix(c: Core, run: seq<CoreEvent>, t: nat, bound: nat)
    requires RegulationTime(t) && SteadyRun(c, run, t, bound) && run != []
    ensures var k := |run| - 1;
            SteadyRun(c, run[..k], t, bound) && SteadyEvent(CoreRun(c, run[..k], t), run[k], t, bound)
  {
    hide SteadyEvent, CoreRun;
    var k := |run| - 1;
    assert forall n :: 0 <= n < k ==> run[..k][..n] == run[..n];
  }

  /** A run whose samples stay at or below b and whose errors stay at or below a bound. */
  ghost predicate CalmRun(c: Core, run: seq<CoreEvent>, t: nat, bound: nat, b: nat)
    requires RegulationTime(t)
  {
    BoundedBy(c, b) && RunBelow(c, run, t, b) && SteadyRun(c, run, t, bound)
  }

  lemma CalmPrefix(c: Core, run: seq<CoreEvent>, t: nat, bound: nat, b: nat)
    requires RegulationTime(t) && CalmRun(c, run, t, bound, b) && run != []
    ensures var k := |run| - 1;
            && CalmRun(c, run[..k], t, bound, b) && SteadyEvent(CoreRun(c, run[..k], t), run[k], t, bound)
            && (run[k].Control? ==> EventBelow(CoreRun(c, run[..k], t), run[k], t, b))
  {
    hide CoreRun, EventBelow, SteadyRun, SteadyEvent, BoundedBy, AllRejected;
    SteadyPrefix(c, run, t, bound);
    PrefixRuns(c, run, t, b);
  }

  lemma {:induction false} CalmStays(c: Core, run: seq<CoreEvent>, t: nat, bound: nat, b: nat)
    requires RegulationTime(t) && CalmRun(c, run, t, bound, b)
    ensures BoundedBy(CoreRun(c, run, t), b)
  {
    if run != [] {
      hide CalmRun, CoreStep, BoundedBy, Level;
      var k := |run| - 1;
      CalmPrefix(c, run, t, bound, b);
      CalmStays(c, run[..k], t, bound, b);
      BoundStays(CoreRun(c, run[..k], t), run[k], t, b);
    } else {
      assert CoreRun(c, run, t) == c;
    }
  }

  lemma BoundStays(c: Core, e: CoreEvent, t: nat, b: nat)
    requires RegulationTime(t) && BoundedBy(c, b) && (e.Control? ==> EventBelow(c, e, t, b))
    ensures BoundedBy(CoreStep(c, e, t), b)
  {
    if e.Control? {
      hide Pass, Level, BoundedBy;
      RejectionCostsOneLevel(c, e.readEvents, e.writeEvents, t, b);
    } else {
      OtherEventsKeepLevels(c, e, t, b);
    }
  }

  /** Main result: over a whole run with samples below 2^32 every weight stays within its start plus 362 times the
      error bound times the learning rate for every committed pass; rejections only shrink it. */
  lemma {:induction false} WeightsDrift(
      c: Core, run: seq<CoreEvent>, t: nat, bound: nat, b: nat, side: Side, i: nat)
    requires RegulationTime(t) && CalmRun(c, run, t, bound, b) && b < U32 && i < HIST_SIZE
    ensures AbsReal(ChannelOf(CoreRun(c, run, t), side).weights[i])
            <= AbsReal(ChannelOf(c, side).weights[i]) + Strides(CommitsIn(c, run, t), bound)
  {
    hide CoreStep, Commits, SteadyEvent, EventBelow, BoundedBy, CalmRun, ChannelOf, AbsReal;
    if run == [] {
      StridesAdd(0, 0, bound);
    } else {
      var k := |run| - 1;
      CalmPrefix(c, run, t, bound, b);
      WeightsDrift(c, run[..k], t, bound, b, side, i);
      CalmStays(c, run[..k], t, bound, b);
      StepDrifts(CoreRun(c, run[..k], t), run[k], t, bound, b, side, i);
      StridesAdd(CommitsIn(c, run[..k], t), if Commits(CoreRun(c, run[..k], t), run[k], t) then 1 else 0, bound);
      hide Strides;
    }
  }

  lemma {:induction false} NormDrifts(w: seq<real>, w': seq<real>, n: nat, d: real)
    requires n <= |w| && n <= |w'| && forall i :: 0 <= i < n ==> AbsReal(w'[i]) <= AbsReal(w[i]) + d
    ensures L1(w', n) <= L1(w, n) + n as real * d
  {
    if n > 0 {
      NormDrifts(w, w', n - 1, d);
      OneMoreTime(n - 1, d);
      hide AbsReal;
    }
  }

  lemma OneMoreTime(n: nat, d: real)
    ensures (n + 1) as real * d == n as real * d + d
  {
  }

  /** What the L1 norm of one side's weights can grow to within n commits. */
  function GrownNorm(ch: Channel, n: nat, bound: nat): real
  {
    L1(ch.weights, HIST_SIZE) + 5.0 * Strides(n, bound)
  }

  lemma NormsDrift(c: Core, run: seq<CoreEvent>, t: nat, bound: nat, b: nat, side: Side)
    requires RegulationTime(t) && CalmRun(c, run, t, bound, b) && b < U32
    ensures L1(ChannelOf(CoreRun(c, run, t), side).weights, HIST_SIZE)
            <= GrownNorm(ChannelOf(c, side), CommitsIn(c, run, t), bound)
  {
    hide CoreRun, CalmRun, ChannelOf, AbsReal, CommitsIn, Strides, L1;
    var n := CommitsIn(c, run, t);
    var w, w' := ChannelOf(c, side).weights, ChannelOf(CoreRun(c, run, t), side).weights;
    forall i | 0 <= i < HIST_SIZE
      ensures AbsReal(w'[i]) <= AbsReal(w[i]) + Strides(n, bound)
    {
      WeightsDrift(c, run, t, bound, b, side, i);
    }
    NormDrifts(w, w', HIST_SIZE, Strides(n, bound));
  }

  // ---------------------------------------------------------------- passes that stay well defined

  /** Even grown by n commits, the weights keep predictions from samples up to b inside a C int. */
  predicate Roomy(c: Core, n: nat, bound: nat, b: nat)
  {
    && Weighted(GrownNorm(c.read, n, bound), b) < 2147483648.0
    && Weighted(GrownNorm(c.write, n, bound), b) < 2147483648.0
  }

  lemma RoomierBefore(c: Core, m: nat, n: nat, bound: nat, b: nat)
    requires Roomy(c, m + n, bound, b)
    ensures Roomy(c, m, bound, b)
  {
    StridesAdd(m, n, bound);
    hide Strides;
    WeightedMonotone(GrownNorm(c.read, m, bound), GrownNorm(c.read, m + n, bound), b);
    WeightedMonotone(GrownNorm(c.write, m, bound), GrownNorm(c.write, m + n, bound), b);
  }

  lemma WeightedMonotone(x: real, y: real, b: nat)
    requires x <= y
    ensures Weighted(x, b) <= Weighted(y, b)
  {
  }

  lemma OtherEventsKeepRanges(c: Core, e: CoreEvent, t: nat)
    requires RegulationTime(t) && !e.Control? && CoreFits(c)
    ensures CoreFits(CoreStep(c, e, t))
  {
  }

  /** A pass after a run is well defined if the weights had room for the commits of that run. */
  lemma PassStaysDefined(c: Core, run: seq<CoreEvent>, e: CoreEvent, t: nat, bound: nat, b: nat)
    requires RegulationTime(t) && CalmRun(c, run, t, bound, b) && b < S32 && e.Control?
    requires Roomy(c, CommitsIn(c, run, t), bound, b)
    requires var now := CoreRun(c, run, t); CoreFits(now) && EventBelow(now, e, t, b)
    ensures PassFits(CoreRun(c, run, t), e.readEvents, e.writeEvents, t)
  {
    hide CoreRun, CalmRun, EventsToMb, CommitsIn, GrownNorm, L1, SampleFits, CoreFits, SampleBelow, AllBelow;
    hide Weighted;
    var now := CoreRun(c, run, t);
    CalmStays(c, run, t, bound, b);
    NormsDrift(c, run, t, bound, b, ReadSide);
    NormsDrift(c, run, t, bound, b, WriteSide);
    WeightedMonotone(L1(now.read.weights, HIST_SIZE), GrownNorm(c.read, CommitsIn(c, run, t), bound), b);
    WeightedMonotone(L1(now.write.weights, HIST_SIZE), GrownNorm(c.write, CommitsIn(c, run, t), bound), b);
    BoundedWeightsFit(now.read, now.ri, EventsToMb(e.readEvents, t), b);
    BoundedWeightsFit(now.write, now.ri, EventsToMb(e.writeEvents, t), b);
  }

  /** The conditions under which a whole run of a core stays inside the machine ranges. */
  ghost predicate TameRun(c: Core, run: seq<CoreEvent>, t: nat, bound: nat, b: nat)
    requires RegulationTime(t)
  {
    && CoreFits(c) && b < S32 && CalmRun(c, run, t, bound, b)
    && Roomy(c, CommitsIn(c, run, t), bound, b)
  }

  lemma TamePrefix(c: Core, run: seq<CoreEvent>, t: nat, bound: nat, b: nat)
    requires RegulationTime(t) && TameRun(c, run, t, bound, b) && run != []
    ensures TameRun(c, run[..|run| - 1], t, bound, b)
    ensures run[|run| - 1].Control? ==> EventBelow(CoreRun(c, run[..|run| - 1], t), run[|run| - 1], t, b)
  {
    hide CoreRun, Commits, EventBelow, SteadyEvent, CalmRun, Roomy, CoreFits;
    var k := |run| - 1;
    CalmPrefix(c, run, t, bound, b);
    RoomierBefore(c, CommitsIn(c, run[..k], t), if Commits(CoreRun(c, run[..k], t), run[k], t) then 1 else 0, bound, b);
  }

  lemma {:induction false} TameRunFits(c: Core, run: seq<CoreEvent>, t: nat, bound: nat, b: nat)
    requires RegulationTime(t) && TameRun(c, run, t, bound, b)
    ensures CoreFits(CoreRun(c, run, t))
    ensures run != [] && run[|run| - 1].Control? ==>
              PassFits(CoreRun(c, run[..|run| - 1], t), run[|run| - 1].readEvents, run[|run| - 1].writeEvents, t)
  {
    if run != [] {
      hide TameRun, CalmRun, Roomy, CoreFits, PassFits, Pass, EventsToMb, EventBelow;
      var k := |run| - 1;
      var before, e := CoreRun(c, run[..k], t), run[k];
      TamePrefix(c, run, t, bound, b);
      TameRunFits(c, run[..k], t, bound, b);
      if e.Control? {
        TameParts(c, run[..k], t, bound, b);
        PassStaysDefined(c, run[..k], e, t, bound, b);
        PassKeepsRanges(before, e.readEvents, e.writeEvents, t);
      } else {
        OtherEventsKeepRanges(before, e, t);
      }
    }
  }

  lemma TameParts(c: Core, run: seq<CoreEvent>, t: nat, bound: nat, b: nat)
    requires RegulationTime(t) && TameRun(c, run, t, bound, b)
    ensures CalmRun(c, run, t, bound, b) && b < S32 && Roomy(c, CommitsIn(c, run, t), bound, b)
  {
  }

  /** Main result: a core within the machine ranges whose samples stay at or below b and whose errors at or below a
      bound has only well-defined passes, as long as its weights had room for the commits of the run. */
  lemma {:induction false} EveryPassStaysDefined(c: Core, run: seq<CoreEvent>, t: nat, bound: nat, b: nat)
    requires RegulationTime(t) && TameRun(c, run, t, bound, b)
    ensures CoreFits(CoreRun(c, run, t))
    ensures forall n | 0 <= n < |run| && run[n].Control? ::
              PassFits(CoreRun(c, run[..n], t), run[n].readEvents, run[n].writeEvents, t)
  {
    hide TameRun, CoreFits, PassFits, CoreRun;
    TameRunFits(c, run, t, bound, b);
    if run != [] {
      var k := |run| - 1;
      TamePrefix(c, run, t, bound, b);
      EveryPassStaysDefined(c, run[..k], t, bound, b);
      assert forall n :: 0 <= n < k ==> run[..k][..n] == run[..n];
    }
  }
}
