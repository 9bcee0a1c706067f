/** Single-core results carried over to every core of every interleaved run. */
module SystemTheorems {
  import opened Units
  import opened Controller
  import opened RingLog
  import opened LightCore
  import opened Metering
  import opened Starvation
  import opened Drift
  import opened PassLaws
  import opened Regulation
  import opened Ledger

  // ---------------------------------------------------------------- the ring

  /** In every run of the whole regulator, the rings of a core that started fresh refine the log of its committed
      samples, and its next pass decides as the controller with that log does. */
  lemma EveryRingRefinesItsLog(s: Sys, tr: seq<Event>, cpu: nat, readEvents: nat, writeEvents: nat)
    requires Regulated(cpu)
    requires s.plant.cores[cpu] == FreshCore(s.plant.cores[cpu].initialBw, s.plant.cores[cpu].maxBw, s.t)
    ensures var c := s.plant.cores[cpu];
            var a := LogRun(FreshLog(c.initialBw, c.maxBw, s.t), Projected(s, tr, cpu), s.t);
            && Refines(Run(s, tr).plant.cores[cpu], a)
            && Pass(Run(s, tr).plant.cores[cpu], readEvents, writeEvents, s.t).1
               == LogPass(a, readEvents, writeEvents, s.t).1
  {
    hide Pass, LogPass, Refines, FreshCore, FreshLog;
    var c := s.plant.cores[cpu];
    CoresRunProjections(s, tr, cpu);
    RingRefinesLog(c.initialBw, c.maxBw, Projected(s, tr, cpu), s.t, readEvents, writeEvents);
  }

  // ---------------------------------------------------------------- metering

  /** In every run of the whole regulator, what a core's passes have metered on one side is its true use exactly when
      the first and the last reading lie in one window of the C int, and then it is the true usage rounded once. */
  lemma EveryCoreIsMeteredExactlyIff(s: Sys, tr: seq<Event>, cpu: nat, side: Side, first: nat)
    requires Regulated(cpu) && Counts(Projected(s, tr, cpu), side, first, s.t) && ReadingFits(first, s.t)
    requires ChannelOf(s.plant.cores[cpu], side).countNew == EventsToMb(first, s.t)
    ensures var last := LastReading(Projected(s, tr, cpu), side, first);
            var total := TotalUse(s.plant.cores[cpu], Projected(s, tr, cpu), side, s.t);
            && first <= last
            && ChannelOf(Run(s, tr).plant.cores[cpu], side).countNew == EventsToMb(last, s.t)
            && (total == TrueUse(first, last, s.t) <==> SameWindow(first, last, s.t))
            && (total - TrueUse(first, last, s.t)) % 0x1_0000_0000 == 0
            && (SameWindow(first, last, s.t) ==> RoundedUse(total, first, last, s.t))
  {
    hide EventsToMb, RoundedUse, ReadingFits, MbExact, SameWindow, TrueUse, Counts, Run, Projected, CoreRun;
    CoresRunProjections(s, tr, cpu);
    UseIsExactIff(s.plant.cores[cpu], Projected(s, tr, cpu), side, s.t, first);
    if SameWindow(first, LastReading(Projected(s, tr, cpu), side, first), s.t) {
      NoRoundingDrift(s.plant.cores[cpu], Projected(s, tr, cpu), side, s.t, first);
    }
  }

  /** A visit of the master reads the two counters of the cpu that it has reached, if that is online, and changes no
      other core; at an offline cpu it changes nothing and goes on. */
  lemma VisitReadsCounters(s: Sys, readEvents: nat, writeEvents: nat, other: nat)
    requires s.pc.Sweep? && Regulated(s.pc.cpu) && Regulated(other)
    ensures var s' := Apply(s, MasterStep(readEvents, writeEvents));
            var c' := s'.plant.cores[s.pc.cpu];
            && s'.pc == Sweep(s.pc.cpu + 1)
            && (s.pc.cpu in s.online ==>
                  c'.read.countNew == EventsToMb(readEvents, s.t) && c'.write.countNew == EventsToMb(writeEvents, s.t))
            && (s.pc.cpu !in s.online ==> s'.plant == s.plant)
            && (other != s.pc.cpu ==> s'.plant.cores[other] == s.plant.cores[other])
  {
    hide CoreStep, Pass, EventsToMb;
    PassReadsCounters(s.plant.cores[s.pc.cpu], readEvents, writeEvents, s.t);
  }

  // ---------------------------------------------------------------- machine ranges

  /** In every run of the whole regulator that is tame for a core, its next pass is well defined too, if its samples
      stay below the bound: the precondition of the pass in place is met. */
  lemma NextPassIsDefined(
      s: Sys, tr: seq<Event>, cpu: nat, bound: nat, b: nat, readEvents: nat, writeEvents: nat)
    requires Regulated(cpu) && TameRun(s.plant.cores[cpu], Projected(s, tr, cpu), s.t, bound, b)
    requires EventBelow(Run(s, tr).plant.cores[cpu], Control(readEvents, writeEvents), s.t, b)
    ensures CoreFits(Run(s, tr).plant.cores[cpu])
    ensures PassFits(Run(s, tr).plant.cores[cpu], readEvents, writeEvents, s.t)
  {
    hide TameRun, Run, Projected, CoreRun, EventBelow, CoreFits, PassFits, CalmRun, Roomy;
    var c, run := s.plant.cores[cpu], Projected(s, tr, cpu);
    CoresRunProjections(s, tr, cpu);
    TameRunFits(c, run, s.t, bound, b);
    TameParts(c, run, s.t, bound, b);
    PassStaysDefined(c, run, Control(readEvents, writeEvents), s.t, bound, b);
  }

  // ---------------------------------------------------------------- light systems

  /** All cores are light and have the default limits. */
  ghost predicate LightSystem(s: Sys)
  {
    forall cpu: nat | Regulated(cpu) ::
      LightState(s.plant.cores[cpu]) && s.plant.cores[cpu].initialBw == 500 && s.plant.cores[cpu].maxBw == 1000
  }

  /** A system of fresh cores with the default limits is light. */
  lemma FreshSystemIsLight(s: Sys)
    requires forall cpu: nat | Regulated(cpu) :: s.plant.cores[cpu] == FreshCore(500, 1000, s.t)
    ensures LightSystem(s)
  {
    hide LightState, FreshCore;
    FreshIsLight(500, 1000, s.t);
    FreshLimits(500, 1000, s.t);
  }

  lemma FreshLimits(initialBw: nat, maxBw: nat, t: nat)
    requires RegulationTime(t)
    ensures FreshCore(initialBw, maxBw, t).initialBw == initialBw && FreshCore(initialBw, maxBw, t).maxBw == maxBw
  {
  }

  /** A pass taken by this step meters less than 256 on both sides. */
  predicate LightVisit(s: Sys, e: Event)
  {
    TakesPass(s, e) ==> LightEvent(s.plant.cores[s.pc.cpu], Control(e.readEvents, e.writeEvents), s.t)
  }

  /** A pass taken by this step gives a core with the default limits what a light core gets. */
  ghost predicate DefaultVisit(s: Sys, e: Event)
  {
    TakesPass(s, e) ==> DefaultPass(s.plant.cores[s.pc.cpu], Control(e.readEvents, e.writeEvents), s.t)
  }

  lemma LightSystemStep(s: Sys, e: Event)
    requires LightSystem(s) && LightVisit(s, e)
    ensures LightSystem(Apply(s, e)) && DefaultVisit(s, e)
    ensures Apply(s, e).plant.pool <= s.plant.pool + Moved(s, e).commits
  {
    hide Apply, LightState, LightEvent, CoreStep, Pass, DefaultPass;
    forall cpu: nat | Regulated(cpu)
      ensures var c := Apply(s, e).plant.cores[cpu]; LightState(c) && c.initialBw == 500 && c.maxBw == 1000
    {
      StepOnCore(s, e, cpu);
      var es := EventOn(s, e, cpu);
      if es != [] {
        OnlyPassesAreControl(s, e, cpu);
        LightStep(s.plant.cores[cpu], es[0], s.t);
      }
    }
    if TakesPass(s, e) {
      LightStep(s.plant.cores[s.pc.cpu], Control(e.readEvents, e.writeEvents), s.t);
      DefaultPassIsRationed(s.plant.cores[s.pc.cpu], e.readEvents, e.writeEvents, s.t);
    }
    StepIsRationed(s, e);
  }

  lemma OnlyPassesAreControl(s: Sys, e: Event, cpu: nat)
    requires Regulated(cpu) && LightVisit(s, e) && EventOn(s, e, cpu) != []
    ensures LightEvent(s.plant.cores[cpu], EventOn(s, e, cpu)[0], s.t)
  {
  }

  lemma DefaultPassIsRationed(c: Core, readEvents: nat, writeEvents: nat, t: nat)
    requires RegulationTime(t) && DefaultPass(c, Control(readEvents, writeEvents), t)
    ensures var (c', v) := Pass(c, readEvents, writeEvents, t); c'.read.next >= 500 && c'.write.next >= 500
  {
  }

  /** Every pass of the run meters less than 256 on both sides. */
  ghost predicate LightTrace(s: Sys, tr: seq<Event>)
  {
    forall n | 0 <= n < |tr| :: LightVisit(Run(s, tr[..n]), tr[n])
  }

  lemma LightPrefix(s: Sys, tr: seq<Event>, n: nat)
    requires LightTrace(s, tr) && n <= |tr|
    ensures LightTrace(s, tr[..n])
    ensures n < |tr| ==> LightVisit(Run(s, tr[..n]), tr[n])
  {
    hide LightVisit, Run;
    assert forall m :: 0 <= m < n ==> tr[..n][..m] == tr[..m];
  }

  lemma {:induction false} LightSystemRun(s: Sys, tr: seq<Event>)
    requires LightSystem(s) && LightTrace(s, tr)
    ensures LightSystem(Run(s, tr))
    ensures Run(s, tr).plant.pool <= s.plant.pool + MovedBy(s, tr).commits
  {
    if tr != [] {
      hide Apply, Moved, LightSystem, LightTrace, LightVisit, DefaultVisit;
      var k := |tr| - 1;
      LightPrefix(s, tr, k);
      LightSystemRun(s, tr[..k]);
      LightSystemStep(Run(s, tr[..k]), tr[k]);
    }
  }

  /** Main result: in a system of light cores, in every interleaved run, every pass commits with both allocations in
      443..556, releases its core and stays inside the machine ranges; and the pool grows by at most one per commit. */
  lemma LightSystemForever(s: Sys, tr: seq<Event>)
    requires LightSystem(s) && LightTrace(s, tr)
    ensures LightSystem(Run(s, tr))
    ensures forall n | 0 <= n < |tr| :: DefaultVisit(Run(s, tr[..n]), tr[n])
    ensures Run(s, tr).plant.pool <= s.plant.pool + MovedBy(s, tr).commits
  {
    hide Apply, Moved, Run, LightSystem, LightTrace, LightVisit, DefaultVisit;
    LightSystemRun(s, tr);
    forall n | 0 <= n < |tr|
      ensures DefaultVisit(Run(s, tr[..n]), tr[n])
    {
      LightPrefix(s, tr, n);
      LightSystemRun(s, tr[..n]);
      LightSystemStep(Run(s, tr[..n]), tr[n]);
    }
  }
}
