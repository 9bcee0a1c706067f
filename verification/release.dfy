/** No starvation in the whole system: while the master runs, every online core is released within a bounded number of
    master steps, whatever handlers and writers do in between. */
module ReleaseBound {
  import opened Lms
  import opened Split
  import opened Units
  import opened Controller
  import opened Starvation
  import opened Regulation

  function MasterSteps(tr: seq<Event>): nat
  {
    if tr == [] then 0 else MasterSteps(tr[..|tr| - 1]) + if tr[|tr| - 1].MasterStep? then 1 else 0
  }

  /** Program counters that the master can have. */
  predicate PcInRange(pc: MasterPc)
  {
    match pc
    case Startup(k) => 1 <= k <= MAX_NO_CPUS + 1
    case AwaitStart => true
    case Release(k) => 1 <= k <= MAX_NO_CPUS + 1
    case LoopTop => true
    case Sweep(k) => 1 <= k <= MAX_NO_CPUS + 1
  }

  lemma StepKeepsPc(s: Sys, e: Event)
    requires PcInRange(s.pc)
    ensures PcInRange(Apply(s, e).pc)
  {
    hide ControlOn, Touch, OverflowOn;
  }

  /** From boot the master's program counter stays in range. */
  lemma {:induction false} PcStaysInRange(s: Sys, tr: seq<Event>)
    requires PcInRange(s.pc)
    ensures PcInRange(Run(s, tr).pc)
  {
    if tr != [] {
      hide Apply, PcInRange;
      PcStaysInRange(s, tr[..|tr| - 1]);
      StepKeepsPc(Run(s, tr[..|tr| - 1]), tr[|tr| - 1]);
    }
  }

  /** The master state is running before every step of the run and after the last. */
  ghost predicate RunningThroughout(s: Sys, tr: seq<Event>)
  {
    forall n | 0 <= n <= |tr| :: Run(s, tr[..n]).plant.master == Running
  }

  lemma RunningPrefix(s: Sys, tr: seq<Event>)
    requires RunningThroughout(s, tr) && tr != []
    ensures RunningThroughout(s, tr[..|tr| - 1]) && Run(s, tr[..|tr| - 1]).plant.master == Running
  {
    hide Run;
    var k := |tr| - 1;
    assert forall n :: 0 <= n <= k ==> tr[..k][..n] == tr[..n];
  }

  /** Master steps until it first reaches the top of its loop, once the state is running: at most eleven, from the very
      beginning of its startup pass. */
  function StepsToLoop(pc: MasterPc): (n: nat)
    requires PcInRange(pc)
    ensures n <= 2 * MAX_NO_CPUS + 3
  {
    match pc
    case Startup(k) => 2 * MAX_NO_CPUS + 4 - k
    case AwaitStart => MAX_NO_CPUS + 2
    case Release(k) => MAX_NO_CPUS + 2 - k
    case _ => 0
  }

  /** The master's place in its loop: the top is 0, then the cpus, then the end of the sweep. */
  function Position(pc: MasterPc): nat { if pc.Sweep? then pc.cpu else 0 }

  /** Master steps since its last visit to this cpu; before the loop, counted as if it had been in its loop ever
      since. */
  function Since(pc: MasterPc, cpu: nat): int
    requires PcInRange(pc)
  {
    var place := Position(pc);
    (if place > cpu then place - cpu - 1 else place - cpu + MAX_NO_CPUS + 1) - StepsToLoop(pc)
  }

  /** Where the master goes next while its state is running. */
  function NextPc(pc: MasterPc): MasterPc
  {
    match pc
    case Startup(k) => if Regulated(k) then Startup(k + 1) else AwaitStart
    case AwaitStart => Release(1)
    case Release(k) => if Regulated(k) then Release(k + 1) else LoopTop
    case LoopTop => Sweep(1)
    case Sweep(k) => if Regulated(k) then Sweep(k + 1) else LoopTop
  }

  lemma MasterKeepsGoing(s: Sys, e: Event)
    requires s.plant.master == Running && e.MasterStep?
    ensures Apply(s, e).pc == NextPc(s.pc)
  {
    hide ControlOn, Touch;
  }

  lemma TickOf(pc: MasterPc, cpu: nat)
    requires PcInRange(pc) && Regulated(cpu)
    ensures PcInRange(NextPc(pc))
    ensures 1 + Since(pc, cpu) == (if pc == Sweep(cpu) then 6 else 0) + Since(NextPc(pc), cpu)
  {
  }

  /** While the master runs, one loop is six steps and visits every online core once; every step before the loop
      brings it nearer. */
  lemma LoopStep(s: Sys, e: Event, cpu: nat)
    requires s.plant.master == Running && PcInRange(s.pc) && Regulated(cpu) && cpu in s.online
    ensures PcInRange(Apply(s, e).pc)
    ensures var visits := Passes(EventOn(s, e, cpu));
            (if e.MasterStep? then 1 else 0) + Since(s.pc, cpu) == 6 * visits + Since(Apply(s, e).pc, cpu)
  {
    hide Apply, EventOn, Passes, Since, NextPc, PcInRange;
    PassesOfOne(s, e, cpu);
    if e.MasterStep? {
      MasterKeepsGoing(s, e);
      TickOf(s.pc, cpu);
    } else {
      OthersKeepPc(s, e);
    }
  }

  lemma OthersKeepPc(s: Sys, e: Event)
    requires !e.MasterStep?
    ensures Apply(s, e).pc == s.pc
  {
    hide Touch, OverflowOn;
  }

  lemma PassesOfOne(s: Sys, e: Event, cpu: nat)
    requires Regulated(cpu)
    ensures Passes(EventOn(s, e, cpu)) == if e.MasterStep? && s.pc == Sweep(cpu) && cpu in s.online then 1 else 0
  {
    assert Passes([]) == 0;
    assert forall x: CoreEvent :: [x][..0] == [];
  }

  lemma {:induction false} PassesAppend(a: seq<CoreEvent>, b: seq<CoreEvent>)
    ensures Passes(a + b) == Passes(a) + Passes(b)
  {
    if b == [] {
      assert a + b == a;
    } else {
      var k := |b| - 1;
      PassesAppend(a, b[..k]);
      assert (a + b)[..|a + b| - 1] == a + b[..k];
    }
  }

  /** The master visits every online core once in six of its steps. */
  lemma {:induction false} VisitsInRun(s: Sys, tr: seq<Event>, cpu: nat)
    requires Regulated(cpu) && cpu in s.online && PcInRange(s.pc) && RunningThroughout(s, tr)
    ensures PcInRange(Run(s, tr).pc)
    ensures MasterSteps(tr) + Since(s.pc, cpu) == 6 * Passes(Projected(s, tr, cpu)) + Since(Run(s, tr).pc, cpu)
  {
    if tr != [] {
      hide Apply, EventOn, Since, PcInRange, RunningThroughout;
      var k := |tr| - 1;
      RunningPrefix(s, tr);
      VisitsInRun(s, tr[..k], cpu);
      CoresRunProjections(s, tr[..k], cpu);
      LoopStep(Run(s, tr[..k]), tr[k], cpu);
      PassesAppend(Projected(s, tr[..k], cpu), EventOn(Run(s, tr[..k]), tr[k], cpu));
    }
  }

  // ---------------------------------------------------------------- rejections and samples, seen from the system

  /** This step is a pass over the core, and it commits. */
  predicate CommitsOn(s: Sys, e: Event, cpu: nat)
    requires Regulated(cpu)
  {
    EventOn(s, e, cpu) != [] && Commits(s.plant.cores[cpu], EventOn(s, e, cpu)[0], s.t)
  }

  /** A pass over the core meters at most b. */
  predicate SamplesBelow(s: Sys, e: Event, cpu: nat, b: nat)
    requires Regulated(cpu)
  {
    var es := EventOn(s, e, cpu);
    es != [] && es[0].Control? ==> EventBelow(s.plant.cores[cpu], es[0], s.t, b)
  }

  ghost predicate NoCommit(s: Sys, tr: seq<Event>, cpu: nat)
    requires Regulated(cpu)
  {
    forall n | 0 <= n < |tr| :: !CommitsOn(Run(s, tr[..n]), tr[n], cpu)
  }

  /** Every pass over the core meters at most b. */
  ghost predicate SampledBelow(s: Sys, tr: seq<Event>, cpu: nat, b: nat)
    requires Regulated(cpu)
  {
    forall n | 0 <= n < |tr| :: SamplesBelow(Run(s, tr[..n]), tr[n], cpu, b)
  }

  lemma TracePrefix(s: Sys, tr: seq<Event>, cpu: nat, b: nat)
    requires Regulated(cpu) && tr != []
    ensures var k := |tr| - 1;
            && (SampledBelow(s, tr, cpu, b) ==>
                  SampledBelow(s, tr[..k], cpu, b) && SamplesBelow(Run(s, tr[..k]), tr[k], cpu, b))
            && (NoCommit(s, tr, cpu) ==> NoCommit(s, tr[..k], cpu) && !CommitsOn(Run(s, tr[..k]), tr[k], cpu))
  {
    hide Run, SamplesBelow, CommitsOn;
    var k := |tr| - 1;
    assert forall n :: 0 <= n < k ==> tr[..k][..n] == tr[..n];
  }

  lemma {:induction false} ProjectionBelow(s: Sys, tr: seq<Event>, cpu: nat, b: nat)
    requires Regulated(cpu) && SampledBelow(s, tr, cpu, b)
    ensures RunBelow(s.plant.cores[cpu], Projected(s, tr, cpu), s.t, b)
    ensures NoCommit(s, tr, cpu) ==> AllRejected(s.plant.cores[cpu], Projected(s, tr, cpu), s.t)
  {
    if tr != [] {
      hide Run, EventOn, SamplesBelow, CommitsOn, SampledBelow, NoCommit, RunBelow, AllRejected;
      var k := |tr| - 1;
      TracePrefix(s, tr, cpu, b);
      ProjectionBelow(s, tr[..k], cpu, b);
      ExtendProjection(s, tr[..k], tr[k], cpu, b);
    }
  }

  /** One more event of the system is no event or one more event of the core. */
  lemma ExtendProjection(s: Sys, tr: seq<Event>, e: Event, cpu: nat, b: nat)
    requires Regulated(cpu)
    ensures var c, run := s.plant.cores[cpu], Projected(s, tr, cpu);
            var run' := run + EventOn(Run(s, tr), e, cpu);
            && (RunBelow(c, run, s.t, b) && SamplesBelow(Run(s, tr), e, cpu, b) ==> RunBelow(c, run', s.t, b))
            && (AllRejected(c, run, s.t) && !CommitsOn(Run(s, tr), e, cpu) ==> AllRejected(c, run', s.t))
  {
    hide Apply, EventOn, Commits, EventBelow, RunBelow, AllRejected, CoreStep, Run;
    CoresRunProjections(s, tr, cpu);
    StepOnCore(Run(s, tr), e, cpu);
    var es, run := EventOn(Run(s, tr), e, cpu), Projected(s, tr, cpu);
    if es == [] {
      assert run + es == run;
    } else {
      assert es == [es[0]];
      ExtendRun(s.plant.cores[cpu], run, es[0], s.t, b);
    }
  }

  lemma ExtendRun(c: Core, run: seq<CoreEvent>, e: CoreEvent, t: nat, b: nat)
    requires RegulationTime(t)
    ensures RunBelow(c, run, t, b) && (e.Control? ==> EventBelow(CoreRun(c, run, t), e, t, b))
            ==> RunBelow(c, run + [e], t, b)
    ensures AllRejected(c, run, t) && !Commits(CoreRun(c, run, t), e, t) ==> AllRejected(c, run + [e], t)
  {
    hide Commits, EventBelow;
    assert forall n :: 0 <= n <= |run| ==> (run + [e])[..n] == run[..n];
    assert run[..|run|] == run;
  }

  lemma CommitOnReleases(s: Sys, e: Event, cpu: nat)
    requires Regulated(cpu) && CommitsOn(s, e, cpu)
    ensures !Apply(s, e).plant.cores[cpu].throttled
  {
    hide Apply, EventOn, CoreStep;
    StepOnCore(s, e, cpu);
    CommitReleases(s.plant.cores[cpu], EventOn(s, e, cpu)[0], s.t);
  }

  /** Who changes a throttle flag: it falls exactly when the master commits a pass over the core or visits it in the
      release pass, and rises exactly when the startup pass visits it or it overflows with too little in the pool. */
  lemma FlagChangesIff(s: Sys, e: Event, cpu: nat)
    requires Regulated(cpu)
    ensures var c, c' := s.plant.cores[cpu], Apply(s, e).plant.cores[cpu];
            && (c.throttled && !c'.throttled <==>
                  c.throttled && ((e.MasterStep? && s.pc == Release(cpu)) || CommitsOn(s, e, cpu)))
            && (!c.throttled && c'.throttled <==>
                  !c.throttled && ((e.MasterStep? && s.pc == Startup(cpu))
                                   || (e == Overflow(cpu) && s.plant.pool <= c.read.used)))
  {
    hide Apply, CoreStep, Pass;
    StepOnCore(s, e, cpu);
    if EventOn(s, e, cpu) != [] { FlagAfter(s.plant.cores[cpu], EventOn(s, e, cpu)[0], s.t); }
  }

  lemma FlagAfter(c: Core, e: CoreEvent, t: nat)
    requires RegulationTime(t)
    ensures CoreStep(c, e, t).throttled == if e.Flag? then e.on else c.throttled && !Commits(c, e, t)
  {
    hide EventsToMb, MbToEvents, Predict, Update, Allocate;
  }

  /** Main result: while the master state is running, wherever the master thread is, and the samples of an online core
      stay at or below b, any run with 6 (kr + kw + 1) + 5 master steps, and those that the master needs to reach its
      loop, contains a commit on that core, which releases it. Every other event of the system may happen in between,
      any number of times. */
  lemma OnlineCoreIsReleased(s: Sys, tr: seq<Event>, cpu: nat, b: nat) returns (n: nat)
    requires Regulated(cpu) && cpu in s.online && BoundedBy(s.plant.cores[cpu], b)
    requires PcInRange(s.pc) && RunningThroughout(s, tr) && SampledBelow(s, tr, cpu, b)
    requires var c := s.plant.cores[cpu];
             MasterSteps(tr) >= StepsToLoop(s.pc)
                                + 6 * (Level(c.read, c.initialBw, b) + Level(c.write, c.initialBw, b) + 1) + 5
    ensures n < |tr| && CommitsOn(Run(s, tr[..n]), tr[n], cpu)
    ensures !Run(s, tr[..n + 1]).plant.cores[cpu].throttled
  {
    hide Level, Apply, CommitsOn, SampledBelow, RunningThroughout, BoundedBy, Projected, RunBelow, AllRejected;
    VisitsInRun(s, tr, cpu);
    ProjectionBelow(s, tr, cpu, b);
    if NoCommit(s, tr, cpu) {
      RejectionsAreFinite(s.plant.cores[cpu], Projected(s, tr, cpu), s.t, b);
      assert false;
    }
    n :| 0 <= n < |tr| && CommitsOn(Run(s, tr[..n]), tr[n], cpu);
    CommitOnReleases(Run(s, tr[..n]), tr[n], cpu);
    assert tr[..n + 1][..n] == tr[..n];
  }
}
