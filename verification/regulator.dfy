/** The whole regulator as a state machine: the master thread, the overflow handlers, and the enable switch, interleaved
    in any order. Every per-core pass, handler and per-core start or stop is one atomic step. */
module Regulation {
  import opened Units
  import opened Split
  import opened Controller

  const MAX_NO_CPUS: nat := 4

  predicate Regulated(cpu: nat) { 1 <= cpu <= MAX_NO_CPUS }

  // ---------------------------------------------------------------- the shared data

  datatype MasterState = Initial | Running | Stopped

  /** The core table (entry 0 is the master's own and unused), the reclaim pool, the master state and the switch. */
  datatype PlantRecord = PlantRecord(cores: seq<Core>, pool: nat, master: MasterState, enabled: bool)

  const FRESH_CORES: seq<Core> := seq(MAX_NO_CPUS + 1, i => FreshCore(0, 0, 1))

  type Plant = p: PlantRecord | |p.cores| == MAX_NO_CPUS + 1
    witness PlantRecord(FRESH_CORES, 0, Initial, false)

  /** One core event on one regulated core. */
  function Touch(p: Plant, cpu: nat, e: CoreEvent, t: nat): (q: Plant)
    requires Regulated(cpu) && RegulationTime(t)
    ensures q.master == p.master && q.enabled == p.enabled && q.pool == p.pool
  {
    p.(cores := p.cores[cpu := CoreStep(p.cores[cpu], e, t)])
  }

  /** The same event on the cores 1 to n. */
  function TouchAll(p: Plant, e: CoreEvent, n: nat, t: nat): Plant
    requires n <= MAX_NO_CPUS && RegulationTime(t)
  {
    if n == 0 then p else Touch(TouchAll(p, e, n - 1, t), n, e, t)
  }

  /** What an overflowing core takes from the pool: half its last usage, if the pool holds more than that usage. */
  function Draw(c: Core, pool: nat): nat
  {
    if c.read.used < pool then c.read.used / 2 else 0
  }

  function OverflowEvent(c: Core, pool: nat): CoreEvent
  {
    if c.read.used < pool then Grant(c.read.used / 2) else Flag(true)
  }

  /** The read overflow handler on one core. */
  function OverflowOn(p: Plant, cpu: nat, t: nat): (q: Plant)
    requires Regulated(cpu) && RegulationTime(t)
    ensures q.master == p.master && q.enabled == p.enabled && q.pool <= p.pool
  {
    var c := p.cores[cpu];
    Touch(p, cpu, OverflowEvent(c, p.pool), t).(pool := p.pool - Draw(c, p.pool))
  }

  lemma CreditNonNegative(c: Core, readEvents: nat, writeEvents: nat, t: nat)
    requires RegulationTime(t)
    ensures Credit(c, Pass(c, readEvents, writeEvents, t).1) >= 0
  {
    hide EventsToMb, MbToEvents, Allocate;
    var r := Estimated(Metered(c.read, EventsToMb(readEvents, t)), c.ri, c.initialBw);
    var w := Estimated(Metered(c.write, EventsToMb(writeEvents, t)), c.ri, c.initialBw);
    if r.next >= 0 && w.next >= 0 { SplitIsSafe(c.maxBw, r.next, w.next); }
  }

  /** The master's pass over one core, with its credit to the pool. */
  function ControlOn(p: Plant, cpu: nat, readEvents: nat, writeEvents: nat, t: nat): (q: Plant)
    requires Regulated(cpu) && RegulationTime(t)
    ensures q.master == p.master && q.enabled == p.enabled && p.pool <= q.pool
    ensures forall k: nat | k < |p.cores| && k != cpu :: q.cores[k] == p.cores[k]
  {
    var c := p.cores[cpu];
    CreditNonNegative(c, readEvents, writeEvents, t);
    Touch(p, cpu, Control(readEvents, writeEvents), t)
      .(pool := p.pool + Credit(c, Pass(c, readEvents, writeEvents, t).1))
  }

  /** One sweep of the master over the online cores 1 to n. */
  function SweepTo(p: Plant, online: set<nat>, readCounts: seq<nat>, writeCounts: seq<nat>, n: nat, t: nat): Plant
    requires n <= MAX_NO_CPUS && |readCounts| == |writeCounts| == MAX_NO_CPUS + 1 && RegulationTime(t)
  {
    if n == 0 then p
    else
      var q := SweepTo(p, online, readCounts, writeCounts, n - 1, t);
      if n in online then ControlOn(q, n, readCounts[n], writeCounts[n], t) else q
  }

  lemma SweepExtends(p: Plant, online: set<nat>, readCounts: seq<nat>, writeCounts: seq<nat>, n: nat, t: nat)
    requires Regulated(n) && |readCounts| == |writeCounts| == MAX_NO_CPUS + 1 && RegulationTime(t)
    ensures var q := SweepTo(p, online, readCounts, writeCounts, n - 1, t);
            && q.cores[n] == p.cores[n]
            && SweepTo(p, online, readCounts, writeCounts, n, t)
               == if n in online then ControlOn(q, n, readCounts[n], writeCounts[n], t) else q
  {
    SweepLeavesRest(p, online, readCounts, writeCounts, n - 1, n, t);
  }

  /** A sweep has not touched the cores it has not reached. */
  lemma {:induction false} SweepLeavesRest(
      p: Plant, online: set<nat>, readCounts: seq<nat>, writeCounts: seq<nat>, n: nat, k: nat, t: nat)
    requires n < k <= MAX_NO_CPUS && |readCounts| == |writeCounts| == MAX_NO_CPUS + 1 && RegulationTime(t)
    ensures SweepTo(p, online, readCounts, writeCounts, n, t).cores[k] == p.cores[k]
  {
    if n > 0 {
      hide ControlOn;
      SweepLeavesRest(p, online, readCounts, writeCounts, n - 1, k, t);
    }
  }

  // ---------------------------------------------------------------- the threads

  /** Where the master thread is: in its startup pass, waiting to be started, in the pass that releases the cores, at
      the top of its loop (waiting there while paused), or about to visit a cpu. */
  datatype MasterPc =
    | Startup(cpu: nat)
    | AwaitStart
    | Release(cpu: nat)
    | LoopTop
    | Sweep(cpu: nat)

  /** Where a write to the enable switch is; step 0 sets the master state, steps 1 to 4 touch the cores. */
  datatype Writer = Idle | Starting(step: nat) | Stopping(step: nat)

  /** What user space writes to the switch. */
  datatype Input = Malformed | Parsed(value: nat)

  datatype SysRecord = SysRecord(plant: Plant, pc: MasterPc, writer: Writer, online: set<nat>, t: nat)

  type Sys = s: SysRecord | RegulationTime(s.t)
    witness SysRecord(PlantRecord(FRESH_CORES, 0, Initial, false), Startup(1), Idle, {}, 1)

  datatype Event =
    | MasterStep(readEvents: nat, writeEvents: nat)
    | Overflow(cpu: nat)
    | WriteEnable(input: Input)
    | WriterStep

  function MasterMoves(s: Sys, readEvents: nat, writeEvents: nat): Sys
  {
    match s.pc
    case Startup(k) =>
      if Regulated(k) then s.(plant := Touch(s.plant, k, Flag(true), s.t), pc := Startup(k + 1))
      else s.(pc := AwaitStart)
    case AwaitStart => if s.plant.master.Running? then s.(pc := Release(1)) else s
    case Release(k) =>
      if Regulated(k) then s.(plant := Touch(s.plant, k, Flag(false), s.t), pc := Release(k + 1))
      else s.(pc := LoopTop)
    case LoopTop => if s.plant.master.Running? then s.(pc := Sweep(1)) else s
    case Sweep(k) =>
      if !Regulated(k) then s.(pc := LoopTop)
      else if k in s.online then
        s.(plant := ControlOn(s.plant, k, readEvents, writeEvents, s.t), pc := Sweep(k + 1))
      else s.(pc := Sweep(k + 1))
  }

  /** A write is refused if it is no 0 or 1, and does nothing if the switch has that value already. */
  predicate Accepts(s: Sys, input: Input)
  {
    s.writer.Idle? && input.Parsed? && input.value <= 1 && (input.value == 1) != s.plant.enabled
  }

  function WriteMoves(s: Sys, input: Input): Sys
  {
    if !Accepts(s, input) then s
    else s.(plant := s.plant.(enabled := input.value == 1),
            writer := if input.value == 1 then Starting(0) else Stopping(0))
  }

  function WriterMoves(s: Sys): Sys
  {
    match s.writer
    case Idle => s
    case Starting(k) =>
      if k == 0 then s.(plant := s.plant.(master := Running), writer := Starting(1))
      else if Regulated(k) then s.(plant := Touch(s.plant, k, Begin, s.t), writer := Starting(k + 1))
      else s.(writer := Idle)
    case Stopping(k) =>
      if k == 0 then s.(plant := s.plant.(master := Initial), writer := Stopping(1))
      else if Regulated(k) then s.(plant := Touch(s.plant, k, End, s.t), writer := Stopping(k + 1))
      else s.(writer := Idle)
  }

  /** One step of the interleaving; a step that cannot be taken leaves everything as it is. */
  function Apply(s: Sys, e: Event): Sys
  {
    match e
    case MasterStep(readEvents, writeEvents) => MasterMoves(s, readEvents, writeEvents)
    case Overflow(cpu) => if Regulated(cpu) then s.(plant := OverflowOn(s.plant, cpu, s.t)) else s
    case WriteEnable(input) => WriteMoves(s, input)
    case WriterStep => WriterMoves(s)
  }

  /** The state after a run of events. */
  function Run(s: Sys, tr: seq<Event>): Sys
  {
    if tr == [] then s else Apply(Run(s, tr[..|tr| - 1]), tr[|tr| - 1])
  }

  /** The module just after initialization: throttle flags off, master thread about to throttle every core. */
  predicate Boot(s: Sys)
  {
    s.pc == Startup(1) && s.writer == Idle && s.plant.master == Initial && !s.plant.enabled
  }

  // ---------------------------------------------------------------- one core within a run

  /** What a step does to one core: nothing, or one core event. */
  function EventOn(s: Sys, e: Event, cpu: nat): seq<CoreEvent>
    requires Regulated(cpu)
  {
    match e
    case MasterStep(readEvents, writeEvents) => (
      match s.pc
      case Startup(k) => if k == cpu then [Flag(true)] else []
      case Release(k) => if k == cpu then [Flag(false)] else []
      case Sweep(k) => if k == cpu && k in s.online then [Control(readEvents, writeEvents)] else []
      case _ => [])
    case Overflow(k) => if k == cpu then [OverflowEvent(s.plant.cores[cpu], s.plant.pool)] else []
    case WriteEnable(_) => []
    case WriterStep => (
      match s.writer
      case Idle => []
      case Starting(k) => if k == cpu then [Begin] else []
      case Stopping(k) => if k == cpu then [End] else [])
  }

  /** The core events that a run brings to one core. */
  function Projected(s: Sys, tr: seq<Event>, cpu: nat): seq<CoreEvent>
    requires Regulated(cpu)
  {
    if tr == [] then []
    else Projected(s, tr[..|tr| - 1], cpu) + EventOn(Run(s, tr[..|tr| - 1]), tr[|tr| - 1], cpu)
  }

  lemma StepOnCore(s: Sys, e: Event, cpu: nat)
    requires Regulated(cpu)
    ensures |EventOn(s, e, cpu)| <= 1 && Apply(s, e).t == s.t && Apply(s, e).online == s.online
    ensures Apply(s, e).plant.cores[cpu]
            == if EventOn(s, e, cpu) == [] then s.plant.cores[cpu]
               else CoreStep(s.plant.cores[cpu], EventOn(s, e, cpu)[0], s.t)
  {
    hide CoreStep, Credit, Pass;
  }

  lemma OneMoreEvent(c: Core, run: seq<CoreEvent>, e: CoreEvent, t: nat)
    requires RegulationTime(t)
    ensures CoreRun(c, run + [e], t) == CoreStep(CoreRun(c, run, t), e, t)
  {
    assert (run + [e])[..|run|] == run;
  }

  /** Every core of the interleaved system runs exactly its own projected events: results about single cores hold for
      every core in every run of the whole regulator. */
  lemma {:induction false} CoresRunProjections(s: Sys, tr: seq<Event>, cpu: nat)
    requires Regulated(cpu)
    ensures Run(s, tr).t == s.t && Run(s, tr).online == s.online
    ensures Run(s, tr).plant.cores[cpu] == CoreRun(s.plant.cores[cpu], Projected(s, tr, cpu), s.t)
  {
    if tr != [] {
      hide Apply, EventOn, CoreStep;
      var k := |tr| - 1;
      CoresRunProjections(s, tr[..k], cpu);
      var before, es := Run(s, tr[..k]), EventOn(Run(s, tr[..k]), tr[k], cpu);
      StepOnCore(before, tr[k], cpu);
      if es == [] {
        assert Projected(s, tr, cpu) == Projected(s, tr[..k], cpu);
      } else {
        assert es == [es[0]];
        OneMoreEvent(s.plant.cores[cpu], Projected(s, tr[..k], cpu), es[0], s.t);
      }
    }
  }
}
