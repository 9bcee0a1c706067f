/** What the steps on one core mean, said without the functions that compute them: estimates against predictions,
    learning against usages, and which fields which events leave alone. */
module PassLaws {
  import opened Machine
  import opened Lms
  import opened LmsTheorems
  import opened Units
  import opened Split
  import opened Controller

  // ---------------------------------------------------------------- estimates

  /** Above the initial bandwidth an estimate is the prediction without its fraction, dropped towards zero. */
  lemma EstimateIsTruncated(ch: Channel, ri: nat, initialBw: nat)
    requires ri < HIST_SIZE
    ensures var e := Estimated(ch, ri, initialBw);
            var p := Predict(e.hist, e.weights, ri);
            && (p >= 0.0 ==> p - 1.0 < (e.next - initialBw) as real <= p)
            && (p <= 0.0 ==> p <= (e.next - initialBw) as real < p + 1.0)
  {
    TruncateDropsFraction(Predict(ch.hist[ri := ch.used], ch.weights, ri));
    hide Predict, Truncate;
  }

  /** The first estimate of a fresh core is the initial bandwidth and a tenth of its first usage, as far as the float
      constant is a tenth. */
  lemma FirstEstimate(initialBw: nat, maxBw: nat, t: nat, side: Side, events: nat)
    requires RegulationTime(t)
    ensures var c := FreshCore(initialBw, maxBw, t);
            var ch := Estimated(Metered(ChannelOf(c, side), EventsToMb(events, t)), c.ri, c.initialBw);
            var p := 13421773.0 / 134217728.0 * ch.used as real;
            ch.used == EventsToMb(events, t) && p - 1.0 < (ch.next - initialBw) as real <= p
  {
    hide EventsToMb, FirstBudget, Truncate;
    var c := FreshCore(initialBw, maxBw, t);
    var ch := Metered(ChannelOf(c, side), EventsToMb(events, t));
    ReadingIsLow(events, t);
    EstimateIsTruncated(ch, c.ri, c.initialBw);
    FirstPrediction(ch.used);
  }

  lemma ReadingIsLow(events: nat, t: nat)
    requires RegulationTime(t)
    ensures Sub64(EventsToMb(events, t), 0) == EventsToMb(events, t)
  {
  }

  lemma FirstPrediction(used: nat)
    ensures Predict(EmptyHistory()[0 := used], InitialWeights(), 0) == 13421773.0 / 134217728.0 * used as real >= 0.0
  {
    var x := Recent(EmptyHistory()[0 := used], 0);
    var w := InitialWeights();
    assert Dot(w, x, 1) == Weighted(w[0], x[0]);
    assert Dot(w, x, 2) == Dot(w, x, 1) + Weighted(w[1], 0);
    assert Dot(w, x, 3) == Dot(w, x, 2) + Weighted(w[2], 0);
    assert Dot(w, x, 4) == Dot(w, x, 3) + Weighted(w[3], 0);
    assert Dot(w, x, 5) == Dot(w, x, 4) + Weighted(w[4], 0);
  }

  /** The initial weight is the float nearest to a tenth: 24 bits of mantissa, less than half a unit of the last place
      away. */
  lemma InitialWeightIsTenth()
    ensures INITIAL_WEIGHT * 134217728.0 == 13421773.0
    ensures AbsReal(INITIAL_WEIGHT - 0.1) * 134217728.0 < 0.5
  {
  }

  // ---------------------------------------------------------------- learning

  /** Main result: within the machine ranges, learning moves the prediction on the history just learnt from towards the
      usage: up if the usage was above the previous estimate, down if it was below, by at most 0.393211 of the gap. */
  lemma LearningFollowsUsage(ch: Channel, ri: nat)
    requires ri < HIST_SIZE && AllBelow(ch.hist, U32) && ch.used < U32 && Abs(ch.prev) < U32
    ensures var shift := Predict(ch.hist, Learned(ch).weights, ri) - Predict(ch.hist, ch.weights, ri);
            && (ch.used >= ch.prev ==> 0.0 <= shift <= 0.393211 * (ch.used - ch.prev) as real)
            && (ch.used <= ch.prev ==> 0.393211 * (ch.used - ch.prev) as real <= shift <= 0.0)
  {
    hide Predict, Update, NormSq, AllBelow;
    NormFits(ch.hist);
    UpdateNeverOvershoots(ch.weights, ch.hist, Error(ch.used, ch.prev), ri);
  }

  /** How a committed pass changes one side, from the reading on. */
  lemma CommittedSide(c: Core, readEvents: nat, writeEvents: nat, t: nat, side: Side)
    requires RegulationTime(t) && Commits(c, Control(readEvents, writeEvents), t)
    ensures var c' := CoreStep(c, Control(readEvents, writeEvents), t);
            var count := EventsToMb(if side.ReadSide? then readEvents else writeEvents, t);
            var ch := Estimated(Metered(ChannelOf(c, side), count), c.ri, c.initialBw);
            && ChannelOf(c', side).weights == Learned(ch).weights
            && ChannelOf(c', side).hist == ch.hist == ChannelOf(c, side).hist[c.ri := ch.used]
            && ChannelOf(c', side).used == ch.used && ChannelOf(c', side).next == ch.next
            && ch.weights == ChannelOf(c, side).weights && ch.prev == ChannelOf(c, side).prev
  {
    hide EventsToMb, MbToEvents, Predict, Update, Allocate, Error, Sub64;
  }

  /** The same of a committed pass: it follows the usage that it metered. */
  lemma CommitFollowsUsage(c: Core, readEvents: nat, writeEvents: nat, t: nat, side: Side, ri: nat)
    requires RegulationTime(t) && Commits(c, Control(readEvents, writeEvents), t) && ri < HIST_SIZE
    requires CoreFits(c) && ChannelOf(CoreStep(c, Control(readEvents, writeEvents), t), side).used < S32
    ensures var before, after := ChannelOf(c, side), ChannelOf(CoreStep(c, Control(readEvents, writeEvents), t), side);
            var shift := Predict(after.hist, after.weights, ri) - Predict(after.hist, before.weights, ri);
            && (after.used >= before.prev ==> 0.0 <= shift <= 0.393211 * (after.used - before.prev) as real)
            && (after.used <= before.prev ==> 0.393211 * (after.used - before.prev) as real <= shift <= 0.0)
  {
    hide Pass, CoreStep, EventsToMb, Predict, Update, Learned, Commits, Sub64, Truncate;
    CommittedSide(c, readEvents, writeEvents, t, side);
    var count := EventsToMb(if side.ReadSide? then readEvents else writeEvents, t);
    LearningFollowsUsage(Estimated(Metered(ChannelOf(c, side), count), c.ri, c.initialBw), ri);
  }

  // ---------------------------------------------------------------- what a pass leaves alone

  /** A rejected pass leaves the ring index, both budgets, the throttle flag, both previous estimates and the limits
      alone, and every slot but the current one. */
  lemma RejectionLeavesRest(c: Core, e: CoreEvent, t: nat, side: Side, slot: nat)
    requires RegulationTime(t) && e.Control? && !Commits(c, e, t) && slot < HIST_SIZE
    ensures var c' := CoreStep(c, e, t);
            && c'.ri == c.ri && c'.throttled == c.throttled && c'.initialBw == c.initialBw && c'.maxBw == c.maxBw
            && ChannelOf(c', side).periodLeft == ChannelOf(c, side).periodLeft
            && ChannelOf(c', side).prev == ChannelOf(c, side).prev
            && (slot != c.ri ==> ChannelOf(c', side).hist[slot] == ChannelOf(c, side).hist[slot])
  {
    hide EventsToMb, MbToEvents, Predict, Update, Allocate, Halve, Sub64;
  }

  /** A pass whose read estimate is negative ends there: the write history, weights and estimate stay as they are. */
  lemma ReadRejectionStopsEarly(c: Core, readEvents: nat, writeEvents: nat, t: nat)
    requires RegulationTime(t) && Pass(c, readEvents, writeEvents, t).1 == ReadRejected
    ensures var w, w' := c.write, Pass(c, readEvents, writeEvents, t).0.write;
            && w'.hist == w.hist && w'.weights == w.weights && w'.next == w.next
    ensures Pass(c, readEvents, writeEvents, t).0.read.next < 0
  {
    hide EventsToMb, MbToEvents, Predict, Update, Allocate, Halve, Sub64;
  }

  /** A pass whose write estimate is negative keeps the read weights and what they estimated. */
  lemma WriteRejectionKeepsRead(c: Core, readEvents: nat, writeEvents: nat, t: nat)
    requires RegulationTime(t) && Pass(c, readEvents, writeEvents, t).1 == WriteRejected
    ensures var c' := Pass(c, readEvents, writeEvents, t).0;
            c'.read.weights == c.read.weights && c'.read.next >= 0 && c'.write.next < 0
  {
    hide EventsToMb, MbToEvents, Predict, Update, Allocate, Halve, Sub64;
  }

  /** Who starts and stops the counters: they begin to count exactly at a start or a commit, and stop exactly at an
      end or a rejected pass. */
  lemma CountingChangesIff(c: Core, e: CoreEvent, t: nat)
    requires RegulationTime(t)
    ensures var c' := CoreStep(c, e, t);
            && (!c.counting && c'.counting <==> !c.counting && (e == Begin || Commits(c, e, t)))
            && (c.counting && !c'.counting <==> c.counting && (e == End || (e.Control? && !Commits(c, e, t))))
  {
    hide EventsToMb, MbToEvents, Predict, Update, Allocate;
  }

  /** Grants, flags, starts and ends leave histories, weights, readings and limits alone; a grant only writes the read
      budget. */
  lemma OtherEventsLeaveRest(c: Core, e: CoreEvent, t: nat, side: Side)
    requires RegulationTime(t) && !e.Control?
    ensures var c' := CoreStep(c, e, t);
            var ch, ch' := ChannelOf(c, side), ChannelOf(c', side);
            && c'.ri == c.ri && c'.initialBw == c.initialBw && c'.maxBw == c.maxBw
            && ch'.hist == ch.hist && ch'.weights == ch.weights && ch'.used == ch.used && ch'.countNew == ch.countNew
            && (e != Begin ==> ch'.prev == ch.prev && ch'.next == ch.next)
            && (side.WriteSide? || !e.Grant? ==> ch'.periodLeft == ch.periodLeft)
            && (side.ReadSide? && e.Grant? ==> ch'.periodLeft == e.budget)
  {
  }

  // ---------------------------------------------------------------- runs

  /** The estimate of the last committed pass since regulation was last started. */
  function LastEstimate(c: Core, run: seq<CoreEvent>, t: nat, side: Side): int
    requires RegulationTime(t)
  {
    if run == [] then ChannelOf(c, side).prev
    else
      var k := |run| - 1;
      if run[k] == Begin then 0
      else if Commits(CoreRun(c, run[..k], t), run[k], t) then ChannelOf(CoreRun(c, run, t), side).next
      else LastEstimate(c, run[..k], t, side)
  }

  lemma StepKeepsEstimate(c: Core, e: CoreEvent, t: nat, side: Side)
    requires RegulationTime(t)
    ensures ChannelOf(CoreStep(c, e, t), side).prev
            == if e == Begin then 0
               else if Commits(c, e, t) then ChannelOf(CoreStep(c, e, t), side).next
               else ChannelOf(c, side).prev
  {
    hide EventsToMb, MbToEvents, Predict, Update, Allocate, Halve, Sub64;
  }

  /** In every run the estimate that the next commit learns from is that of the last committed pass, zero after a start;
      rejected passes in between do not count. */
  lemma {:induction false} LearnsFromLastCommit(c: Core, run: seq<CoreEvent>, t: nat, side: Side)
    requires RegulationTime(t)
    ensures ChannelOf(CoreRun(c, run, t), side).prev == LastEstimate(c, run, t, side)
  {
    if run != [] {
      hide CoreStep, Commits, ChannelOf;
      var k := |run| - 1;
      LearnsFromLastCommit(c, run[..k], t, side);
      StepKeepsEstimate(CoreRun(c, run[..k], t), run[k], t, side);
    }
  }

  lemma StepKeepsCounts(c: Core, e: CoreEvent, t: nat, side: Side)
    requires RegulationTime(t)
    requires ChannelOf(c, side).used == Sub64(ChannelOf(c, side).countNew, ChannelOf(c, side).countOld)
    ensures var ch := ChannelOf(CoreStep(c, e, t), side); ch.used == Sub64(ch.countNew, ch.countOld)
  {
    hide EventsToMb, MbToEvents, Predict, Update, Allocate, Halve, Sub64;
  }

  /** In every run the usage is the difference of the two readings that the core remembers, as it is in a fresh core. */
  lemma {:induction false} UseIsDifferenceOfReadings(c: Core, run: seq<CoreEvent>, t: nat, side: Side)
    requires RegulationTime(t)
    requires ChannelOf(c, side).used == Sub64(ChannelOf(c, side).countNew, ChannelOf(c, side).countOld)
    ensures var ch := ChannelOf(CoreRun(c, run, t), side); ch.used == Sub64(ch.countNew, ch.countOld)
  {
    if run != [] {
      hide CoreStep, ChannelOf, Sub64;
      var k := |run| - 1;
      UseIsDifferenceOfReadings(c, run[..k], t, side);
      StepKeepsCounts(CoreRun(c, run[..k], t), run[k], t, side);
    }
  }

  lemma FreshReadings(initialBw: nat, maxBw: nat, t: nat, side: Side)
    requires RegulationTime(t)
    ensures var ch := ChannelOf(FreshCore(initialBw, maxBw, t), side); ch.used == Sub64(ch.countNew, ch.countOld)
  {
    hide FirstBudget, InitialWeights;
  }

  ghost predicate EverThrottled(run: seq<CoreEvent>) { exists n :: 0 <= n < |run| && run[n] == Flag(true) }

  ghost predicate EverStarted(c: Core, run: seq<CoreEvent>, t: nat)
    requires RegulationTime(t)
  {
    exists n :: 0 <= n < |run| && (run[n] == Begin || Commits(CoreRun(c, run[..n], t), run[n], t))
  }

  lemma EverExtends(c: Core, run: seq<CoreEvent>, t: nat)
    requires RegulationTime(t) && run != []
    ensures var k := |run| - 1;
            && (EverThrottled(run[..k]) || run[k] == Flag(true) ==> EverThrottled(run))
            && (EverStarted(c, run[..k], t) || run[k] == Begin || Commits(CoreRun(c, run[..k], t), run[k], t)
                ==> EverStarted(c, run, t))
  {
    hide CoreRun, Commits;
    var k := |run| - 1;
    assert forall n :: 0 <= n < k ==> run[..k][..n] == run[..n] && run[..k][n] == run[n];
  }

  lemma FreshIsAtRest(initialBw: nat, maxBw: nat, t: nat)
    requires RegulationTime(t)
    ensures var c := FreshCore(initialBw, maxBw, t); !c.throttled && !c.counting
  {
  }

  /** A fresh core is neither throttled nor counting, and it becomes so only by a throttle store, and only by a start
      or a commit. */
  lemma {:induction false} FreshCoreAtRest(initialBw: nat, maxBw: nat, run: seq<CoreEvent>, t: nat)
    requires RegulationTime(t)
    ensures var c := FreshCore(initialBw, maxBw, t);
            && (CoreRun(c, run, t).throttled ==> EverThrottled(run))
            && (CoreRun(c, run, t).counting ==> EverStarted(c, run, t))
  {
    hide FreshCore, CoreStep, Commits, EverThrottled, EverStarted;
    FreshIsAtRest(initialBw, maxBw, t);
    if run != [] {
      var c, k := FreshCore(initialBw, maxBw, t), |run| - 1;
      FreshCoreAtRest(initialBw, maxBw, run[..k], t);
      EverExtends(c, run, t);
      FlagAndCounting(CoreRun(c, run[..k], t), run[k], t);
    }
  }

  lemma FlagAndCounting(c: Core, e: CoreEvent, t: nat)
    requires RegulationTime(t)
    ensures CoreStep(c, e, t).throttled ==> c.throttled || e == Flag(true)
    ensures CoreStep(c, e, t).counting ==> c.counting || e == Begin || Commits(c, e, t)
  {
    hide EventsToMb, MbToEvents, Predict, Update, Allocate;
  }

  /** Every pass, however it ends, remembers the previous and the new reading of each counter. */
  lemma PassReadsCounters(c: Core, readEvents: nat, writeEvents: nat, t: nat)
    requires RegulationTime(t)
    ensures var c' := CoreStep(c, Control(readEvents, writeEvents), t);
            && c'.read.countNew == EventsToMb(readEvents, t) && c'.read.countOld == c.read.countNew
            && c'.write.countNew == EventsToMb(writeEvents, t) && c'.write.countOld == c.write.countNew
  {
    hide EventsToMb, MbToEvents, Predict, Update, Allocate, Halve, Sub64;
  }
}
