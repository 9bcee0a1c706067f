/** Starting, pausing and stopping: what holds over every run from boot until the module is torn down. */
module Lifecycle {
  import opened Regulation

  // ---------------------------------------------------------------- the startup throttle

  ghost predicate ThrottledBelow(p: Plant, k: nat)
  {
    forall cpu: nat | Regulated(cpu) && cpu < k :: p.cores[cpu].throttled
  }

  /** Before the release pass, the startup pass has throttled the cores it has visited and nothing has let them go. */
  ghost predicate StartupHolds(s: Sys)
  {
    match s.pc
    case Startup(k) => 1 <= k <= MAX_NO_CPUS + 1 && ThrottledBelow(s.plant, k)
    case AwaitStart => ThrottledBelow(s.plant, MAX_NO_CPUS + 1)
    case _ => true
  }

  /** Before the master's loop only the master itself clears throttle flags. */
  lemma FlagsOnlyRise(s: Sys, e: Event, cpu: nat)
    requires Regulated(cpu) && (s.pc.Startup? || s.pc.AwaitStart?) && s.plant.cores[cpu].throttled
    ensures Apply(s, e).plant.cores[cpu].throttled
  {
    hide Apply;
    StepOnCore(s, e, cpu);
  }

  lemma StartupPassThrottles(s: Sys, e: Event)
    requires e.MasterStep? && s.pc.Startup? && Regulated(s.pc.cpu)
    ensures Apply(s, e).plant.cores[s.pc.cpu].throttled
  {
  }

  lemma StartupStep(s: Sys, e: Event)
    requires StartupHolds(s)
    ensures StartupHolds(Apply(s, e))
  {
    var s' := Apply(s, e);
    if s'.pc.Startup? || s'.pc.AwaitStart? {
      PcGoesForward(s, e);
      forall cpu: nat | Regulated(cpu) && (s'.pc.Startup? ==> cpu < s'.pc.cpu)
        ensures s'.plant.cores[cpu].throttled
      {
        hide Apply;
        if s.pc.Startup? && cpu == s.pc.cpu {
          StartupPassThrottles(s, e);
        } else {
          FlagsOnlyRise(s, e, cpu);
        }
      }
    }
  }

  /** The startup phase is entered only from itself. */
  lemma PcGoesForward(s: Sys, e: Event)
    ensures Apply(s, e).pc.Startup? ==>
              s.pc.Startup? && (Apply(s, e).pc == s.pc
                                || (e.MasterStep? && Regulated(s.pc.cpu) && Apply(s, e).pc.cpu == s.pc.cpu + 1))
    ensures Apply(s, e).pc.AwaitStart? ==>
              s.pc.AwaitStart? || (s.pc.Startup? && !Regulated(s.pc.cpu))
  {
    hide ControlOn, Touch, OverflowOn;
  }

  // ---------------------------------------------------------------- the enable switch

  datatype Call = StartAll | StopAll

  /** The call that this step makes, if it makes one. */
  function CallOf(s: Sys, e: Event): seq<Call>
  {
    if e.WriteEnable? && Accepts(s, e.input) then [if e.input.value == 1 then StartAll else StopAll] else []
  }

  /** The start and stop calls that the writes of the run have made. */
  function Calls(s: Sys, tr: seq<Event>): seq<Call>
  {
    if tr == [] then []
    else Calls(s, tr[..|tr| - 1]) + CallOf(Run(s, tr[..|tr| - 1]), tr[|tr| - 1])
  }

  /** Calls alternate, beginning with a start. */
  ghost predicate Alternating(calls: seq<Call>)
  {
    forall i | 0 <= i < |calls| :: calls[i] == if i % 2 == 0 then StartAll else StopAll
  }

  /** The switch agrees with the master state, except while a write has changed the one and not yet the other. */
  ghost predicate SwitchAgrees(s: Sys)
  {
    match s.writer
    case Starting(0) => s.plant.enabled && s.plant.master == Initial
    case Stopping(0) => !s.plant.enabled && s.plant.master == Running
    case Starting(_) => s.plant.enabled && s.plant.master == Running
    case Stopping(_) => !s.plant.enabled && s.plant.master == Initial
    case Idle => s.plant.master == if s.plant.enabled then Running else Initial
  }

  lemma SwitchStep(s: Sys, e: Event)
    requires SwitchAgrees(s)
    ensures SwitchAgrees(Apply(s, e))
    ensures Apply(s, e).plant.enabled
            == if e.WriteEnable? && Accepts(s, e.input) then !s.plant.enabled else s.plant.enabled
    ensures e.WriteEnable? && Accepts(s, e.input) ==> (e.input.value == 1) == !s.plant.enabled
    ensures Apply(s, e).plant.master == Running ==> s.plant.master == Running || s.plant.enabled
  {
    hide ControlOn, OverflowOn;
  }

  /** Before the first start call the master neither runs nor has got past its startup phase. */
  ghost predicate ReleasedByStart(s: Sys, calls: seq<Call>)
  {
    s.plant.master == Running || (!s.pc.Startup? && !s.pc.AwaitStart?) ==> calls != []
  }

  lemma AppendCall(calls: seq<Call>, call: Call)
    requires Alternating(calls) && call == if |calls| % 2 == 0 then StartAll else StopAll
    ensures Alternating(calls + [call])
  {
  }

  lemma ReleaseNeedsRunning(s: Sys, e: Event)
    ensures (s.pc.Startup? || s.pc.AwaitStart?) && !Apply(s, e).pc.Startup? && !Apply(s, e).pc.AwaitStart? ==>
              s.plant.master == Running
  {
    hide ControlOn, OverflowOn, Touch;
  }

  lemma {:induction false} StartupRun(s: Sys, tr: seq<Event>)
    requires StartupHolds(s)
    ensures StartupHolds(Run(s, tr))
  {
    if tr != [] {
      hide Apply, StartupHolds;
      StartupRun(s, tr[..|tr| - 1]);
      StartupStep(Run(s, tr[..|tr| - 1]), tr[|tr| - 1]);
    }
  }

  ghost predicate SwitchInvariant(s: Sys, calls: seq<Call>)
  {
    SwitchAgrees(s) && Alternating(calls) && s.plant.enabled == (|calls| % 2 == 1) && ReleasedByStart(s, calls)
  }

  lemma SwitchInvariantStep(s: Sys, e: Event, calls: seq<Call>)
    requires SwitchInvariant(s, calls)
    ensures SwitchInvariant(Apply(s, e), calls + CallOf(s, e))
  {
    hide Apply, Accepts, SwitchAgrees, Alternating;
    SwitchStep(s, e);
    ReleaseNeedsRunning(s, e);
    AppendCall(calls, if |calls| % 2 == 0 then StartAll else StopAll);
    assert calls + [] == calls;
  }

  lemma {:induction false} SwitchRun(s: Sys, tr: seq<Event>)
    requires Boot(s)
    ensures SwitchInvariant(Run(s, tr), Calls(s, tr))
  {
    if tr != [] {
      hide Apply, SwitchInvariant, CallOf;
      SwitchRun(s, tr[..|tr| - 1]);
      SwitchInvariantStep(Run(s, tr[..|tr| - 1]), tr[|tr| - 1], Calls(s, tr[..|tr| - 1]));
    }
  }

  /** Main result, over every run from boot: the startup throttle holds until the master observes that it is running,
      and it runs only after a start call; start and stop calls alternate beginning with a start; the switch is on
      exactly after a start; and whenever no write is under way it is on exactly if the master state is running. */
  lemma LifecycleSafe(s: Sys, tr: seq<Event>)
    requires Boot(s)
    ensures var s', calls := Run(s, tr), Calls(s, tr);
            && StartupHolds(s')
            && (s'.pc.AwaitStart? ==> forall cpu: nat | Regulated(cpu) :: s'.plant.cores[cpu].throttled)
            && (!s'.pc.Startup? && !s'.pc.AwaitStart? ==> calls != [] && calls[0] == StartAll)
            && Alternating(calls) && s'.plant.enabled == (|calls| % 2 == 1)
            && (s'.writer.Idle? ==> (s'.plant.enabled <==> s'.plant.master == Running))
  {
    StartupRun(s, tr);
    SwitchRun(s, tr);
  }

  // ---------------------------------------------------------------- pausing

  predicate Paused(s: Sys) { s.pc == LoopTop && s.plant.master != Running && s.writer == Idle }

  lemma PauseStep(s: Sys, e: Event, cpu: nat)
    requires Paused(s) && !e.WriteEnable? && Regulated(cpu)
    ensures Paused(Apply(s, e)) && Apply(s, e).plant.pool <= s.plant.pool
    ensures s.plant.cores[cpu].throttled ==> Apply(s, e).plant.cores[cpu].throttled
  {
  }

  /** Pausing does not release anybody: until the next write, a core that was throttled when the master paused stays
      throttled, and the pool only shrinks. */
  lemma {:induction false} PauseKeepsThrottled(s: Sys, tr: seq<Event>, cpu: nat)
    requires Paused(s) && Regulated(cpu) && forall n | 0 <= n < |tr| :: !tr[n].WriteEnable?
    ensures Paused(Run(s, tr)) && Run(s, tr).plant.pool <= s.plant.pool
    ensures s.plant.cores[cpu].throttled ==> Run(s, tr).plant.cores[cpu].throttled
  {
    if tr != [] {
      hide Apply;
      PauseKeepsThrottled(s, tr[..|tr| - 1], cpu);
      PauseStep(Run(s, tr[..|tr| - 1]), tr[|tr| - 1], cpu);
    }
  }
}
