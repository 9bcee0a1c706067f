/** A rejected pass leaves the counters stopped: what the passes up to the next commit then meter. */
module StoppedCounters {
  import opened Lms
  import opened Units
  import opened Split
  import opened Controller
  import opened Metering
  import opened Starvation

  // ---------------------------------------------------------------- counters that do not advance while stopped

  /** A stopped counter is read as it was read last. */
  predicate FrozenEvent(c: Core, e: CoreEvent, side: Side, last: nat)
  {
    e.Control? && !c.counting ==> CountOf(e, side) == last
  }

  ghost predicate Frozen(c: Core, run: seq<CoreEvent>, side: Side, first: nat, t: nat)
    requires RegulationTime(t)
  {
    forall n | 0 <= n < |run| :: FrozenEvent(CoreRun(c, run[..n], t), run[n], side, LastReading(run[..n], side, first))
  }

  /** No pass of the run commits, and regulation is not started anew. */
  ghost predicate NothingRestarts(c: Core, run: seq<CoreEvent>, t: nat)
    requires RegulationTime(t)
  {
    forall n | 0 <= n < |run| :: run[n] != Begin && !Commits(CoreRun(c, run[..n], t), run[n], t)
  }

  /** A run with stopped counters, seen from the core's state and last reading at its start. */
  ghost predicate StoppedRun(c: Core, run: seq<CoreEvent>, side: Side, first: nat, t: nat)
    requires RegulationTime(t)
  {
    && !c.counting && ChannelOf(c, side).countNew == EventsToMb(first, t)
    && Frozen(c, run, side, first, t) && NothingRestarts(c, run, t)
  }

  lemma StoppedPrefix(c: Core, run: seq<CoreEvent>, side: Side, first: nat, t: nat, n: nat)
    requires RegulationTime(t) && StoppedRun(c, run, side, first, t) && n <= |run|
    ensures StoppedRun(c, run[..n], side, first, t)
    ensures n < |run| ==> run[n] != Begin && !Commits(CoreRun(c, run[..n], t), run[n], t)
                          && FrozenEvent(CoreRun(c, run[..n], t), run[n], side, LastReading(run[..n], side, first))
  {
    hide CoreRun, Commits, LastReading, FrozenEvent;
    assert forall m :: 0 <= m < n ==> run[..n][..m] == run[..m];
  }

  lemma OnlyRestartsCount(c: Core, e: CoreEvent, t: nat)
    requires RegulationTime(t) && e != Begin && !Commits(c, e, t)
    ensures e.Control? || !c.counting ==> !CoreStep(c, e, t).counting
  {
    hide EventsToMb, MbToEvents, Predict, Update, Allocate;
  }

  /** Until something restarts them, stopped counters stay stopped and at the same reading. */
  lemma {:induction false} StoppedStays(c: Core, run: seq<CoreEvent>, side: Side, first: nat, t: nat)
    requires RegulationTime(t) && StoppedRun(c, run, side, first, t)
    ensures var c' := CoreRun(c, run, t);
            && !c'.counting && LastReading(run, side, first) == first
            && ChannelOf(c', side).countNew == EventsToMb(first, t)
  {
    if run == [] {
      assert CoreRun(c, run, t) == c;
    } else {
      hide Frozen, NothingRestarts, Commits, CoreStep, EventsToMb, MeteredUse;
      var k := |run| - 1;
      StoppedPrefix(c, run, side, first, t, k);
      StoppedStays(c, run[..k], side, first, t);
      var before := CoreRun(c, run[..k], t);
      OnlyRestartsCount(before, run[k], t);
      if run[k].Control? {
        PassMeters(before, run[k], side, t, first);
      } else {
        OtherEventsKeepMeters(before, run[k], side, t);
      }
    }
  }

  lemma SameReadingMetersZero(first: nat, t: nat)
    requires RegulationTime(t)
    ensures MeteredUse(first, first, t) == 0
  {
  }

  /** Main result: if counters do not advance while stopped, every pass after a rejected one meters zero, up to and
      including the next that commits. */
  lemma StoppedPassMetersZero(c: Core, run: seq<CoreEvent>, e: CoreEvent, side: Side, first: nat, t: nat)
    requires RegulationTime(t) && StoppedRun(c, run, side, first, t)
    requires e.Control? && FrozenEvent(CoreRun(c, run, t), e, side, LastReading(run, side, first))
    ensures ChannelOf(CoreStep(CoreRun(c, run, t), e, t), side).used == 0
  {
    hide StoppedRun, CoreRun, CoreStep, LastReading, EventsToMb, MeteredUse;
    StoppedStays(c, run, side, first, t);
    PassMeters(CoreRun(c, run, t), e, side, t, first);
    SameReadingMetersZero(first, t);
  }

  // ---------------------------------------------------------------- a rejection streak ends by itself

  lemma StoppedSampleBelow(c: Core, e: CoreEvent, side: Side, first: nat, t: nat, b: nat)
    requires RegulationTime(t) && e.Control? && !c.counting && FrozenEvent(c, e, side, first)
    requires ChannelOf(c, side).countNew == EventsToMb(first, t)
    ensures SampleBelow(ChannelOf(c, side), EventsToMb(CountOf(e, side), t), b)
  {
    hide EventsToMb;
  }

  lemma StoppedRunBelow(c: Core, run: seq<CoreEvent>, firstRead: nat, firstWrite: nat, t: nat, b: nat)
    requires RegulationTime(t)
    requires StoppedRun(c, run, ReadSide, firstRead, t) && StoppedRun(c, run, WriteSide, firstWrite, t)
    ensures RunBelow(c, run, t, b) && AllRejected(c, run, t)
  {
    hide StoppedRun, CoreRun, Commits, LastReading, EventsToMb, SampleBelow, FrozenEvent;
    forall n | 0 <= n < |run|
      ensures !Commits(CoreRun(c, run[..n], t), run[n], t)
      ensures run[n].Control? ==> EventBelow(CoreRun(c, run[..n], t), run[n], t, b)
    {
      StoppedPrefix(c, run, ReadSide, firstRead, t, n);
      StoppedPrefix(c, run, WriteSide, firstWrite, t, n);
      StoppedStays(c, run[..n], ReadSide, firstRead, t);
      StoppedStays(c, run[..n], WriteSide, firstWrite, t);
      if run[n].Control? {
        StoppedSampleBelow(CoreRun(c, run[..n], t), run[n], ReadSide, firstRead, t, b);
        StoppedSampleBelow(CoreRun(c, run[..n], t), run[n], WriteSide, firstWrite, t, b);
      }
    }
  }

  /** Main result: whatever the workload, a streak of rejections that has begun has at most as many passes left as the
      weights have halvings, for the samples that the histories hold already: the passes themselves add only zeros. */
  lemma StreakEndsByItself(c: Core, run: seq<CoreEvent>, firstRead: nat, firstWrite: nat, t: nat, b: nat)
    requires RegulationTime(t) && BoundedBy(c, b)
    requires StoppedRun(c, run, ReadSide, firstRead, t) && StoppedRun(c, run, WriteSide, firstWrite, t)
    ensures Passes(run) <= Level(c.read, c.initialBw, b) + Level(c.write, c.initialBw, b)
  {
    hide StoppedRun, CoreRun, Level, BoundedBy, RunBelow, AllRejected, Passes;
    StoppedRunBelow(c, run, firstRead, firstWrite, t, b);
    RejectionsAreFinite(c, run, t, b);
  }
}
