/** The throttler thread of one core: it waits for its flag, then sleeps on MONITOR/MWAIT until a store wakes it. Stores
    to the flag by the master and the handlers, and interrupts, come in between any two of its steps. */
module Throttler {

  /** The next thing the thread does. */
  datatype Pc =
    | WaitEvent      // blocked until the flag is set
    | CheckFlag      // head of the throttle loop
    | SetMonitor     // about to arm the monitor on the flag
    | Recheck        // between MONITOR and MWAIT
    | Mwait          // about to execute MWAIT
    | Asleep         // stopped by MWAIT
    | Exited

  /** The flag, the core's monitor (armed, and triggered by a store since it was armed), the request to stop, and
      whether the processor has MWAIT at all. */
  datatype Throttle = Throttle(pc: Pc, flag: bool, armed: bool, triggered: bool, shouldStop: bool, hasMwait: bool)

  datatype Event =
    | Step             // the thread's next step
    | Store(on: bool)  // any store to the flag, by anybody
    | Interrupt        // an interrupt, which ends MWAIT too
    | RequestStop

  /** MWAIT stops the core only if the monitor is armed and nothing has triggered it; otherwise it falls through. */
  function ThreadStep(s: Throttle): Throttle
  {
    match s.pc
    case WaitEvent =>
      if s.shouldStop then s.(pc := Exited) else if s.flag then s.(pc := CheckFlag) else s
    case CheckFlag =>
      if s.flag && !s.shouldStop then (if s.hasMwait then s.(pc := SetMonitor) else s) else s.(pc := WaitEvent)
    case SetMonitor => s.(pc := Recheck, armed := true, triggered := false)
    case Recheck => if s.flag && !s.shouldStop then s.(pc := Mwait) else s.(pc := CheckFlag)
    case Mwait => if s.armed && !s.triggered then s.(pc := Asleep) else s.(pc := CheckFlag, armed := false)
    case Asleep => if s.triggered then s.(pc := CheckFlag, armed := false) else s
    case Exited => s
  }

  function Apply(s: Throttle, e: Event): Throttle
  {
    match e
    case Step => ThreadStep(s)
    case Store(on) => s.(flag := on, triggered := s.triggered || s.armed)
    case Interrupt => if s.pc == Asleep then s.(pc := CheckFlag, armed := false) else s.(armed := false)
    case RequestStop => s.(shouldStop := true)
  }

  function Run(s: Throttle, tr: seq<Event>): Throttle
  {
    if tr == [] then s else Apply(Run(s, tr[..|tr| - 1]), tr[|tr| - 1])
  }

  predicate Boot(s: Throttle) { s.pc == WaitEvent && !s.flag && !s.armed && !s.triggered && !s.shouldStop }

  /** What every interleaving keeps. */
  predicate Safe(s: Throttle)
  {
    && (s.pc == Mwait && s.armed && !s.triggered ==> s.flag)
    && (s.pc == Asleep && !s.triggered ==> s.flag)
    && (s.pc == Asleep ==> s.armed)
  }

  lemma SafeStep(s: Throttle, e: Event)
    requires Safe(s)
    ensures Safe(Apply(s, e))
  {
  }

  /** Main result: no wakeup is lost. Over all interleavings, a thread asleep with an untriggered monitor is still meant
      to be throttled; so a store that clears the flag finds it awake or wakes it. */
  lemma {:induction false} NoLostWakeup(s: Throttle, tr: seq<Event>)
    requires Boot(s)
    ensures Safe(Run(s, tr))
    ensures var s' := Run(s, tr);
            (s'.pc == Asleep && !s'.flag ==> s'.triggered) &&
            (Apply(s', Store(false)).pc == Asleep ==> ThreadStep(Apply(s', Store(false))).pc == CheckFlag)
  {
    if tr != [] {
      NoLostWakeup(s, tr[..|tr| - 1]);
      SafeStep(Run(s, tr[..|tr| - 1]), tr[|tr| - 1]);
    }
  }

  // ---------------------------------------------------------------- release and throttling

  /** Thread steps that remain until the thread waits for its event again, once the flag stays clear. */
  function StepsToWait(pc: Pc): nat
  {
    match pc
    case WaitEvent => 0
    case CheckFlag => 1
    case Recheck => 2
    case SetMonitor => 3
    case Mwait => 2
    case Asleep => 2
    case Exited => 0
  }

  function ThreadSteps(tr: seq<Event>): nat
  {
    if tr == [] then 0 else ThreadSteps(tr[..|tr| - 1]) + if tr[|tr| - 1] == Step then 1 else 0
  }

  lemma ReleaseStep(s: Throttle, e: Event)
    requires Safe(s) && !s.flag && !s.shouldStop && s.pc != Exited && e != Store(true) && e != RequestStop
    ensures var s' := Apply(s, e);
            && Safe(s') && !s'.flag && !s'.shouldStop && s'.pc != Exited
            && StepsToWait(s'.pc) <= StepsToWait(s.pc)
            && (e == Step && s.pc != WaitEvent ==> StepsToWait(s'.pc) < StepsToWait(s.pc))
  {
  }

  /** Once the flag is clear and stays clear, three steps of the thread bring it back to waiting for the next event,
      whatever clearing stores and interrupts happen in between. */
  lemma {:induction false} ClearedFlagReleases(s: Throttle, tr: seq<Event>)
    requires Safe(s) && !s.flag && !s.shouldStop && s.pc != Exited
    requires forall n | 0 <= n < |tr| :: tr[n] != Store(true) && tr[n] != RequestStop
    ensures var s' := Run(s, tr);
            && Safe(s') && !s'.flag && !s'.shouldStop && s'.pc != Exited
            && StepsToWait(s'.pc) <= StepsToWait(s.pc)
            && (s'.pc == WaitEvent || StepsToWait(s'.pc) + ThreadSteps(tr) <= StepsToWait(s.pc))
    ensures ThreadSteps(tr) >= 3 ==> Run(s, tr).pc == WaitEvent
  {
    if tr != [] {
      var k := |tr| - 1;
      ClearedFlagReleases(s, tr[..k]);
      ReleaseStep(Run(s, tr[..k]), tr[k]);
    }
  }

  /** The thread has entered its throttle loop and not left it. */
  predicate Throttling(pc: Pc) { pc != WaitEvent && pc != Exited }

  /** The converse: as long as the flag stays set and nobody asks the thread to stop, it never leaves the throttle
      loop, whatever repeated throttle stores and interrupts do; and one thread step gets it there. */
  lemma {:induction false} SetFlagThrottles(s: Throttle, tr: seq<Event>)
    requires s.flag && !s.shouldStop && s.pc != Exited
    requires forall n | 0 <= n < |tr| :: tr[n] != Store(false) && tr[n] != RequestStop
    ensures var s' := Run(s, tr);
            && s'.flag && !s'.shouldStop && s'.pc != Exited
            && (Throttling(s.pc) || ThreadSteps(tr) >= 1 ==> Throttling(s'.pc))
  {
    if tr != [] {
      SetFlagThrottles(s, tr[..|tr| - 1]);
    }
  }

  // ---------------------------------------------------------------- a throttled thread sleeps

  /** Thread steps until the thread sleeps on a monitor that nothing has triggered, if nothing disturbs it. */
  function StepsToSleep(s: Throttle): nat
  {
    var ready := s.armed && !s.triggered;
    match s.pc
    case WaitEvent => 5
    case CheckFlag => 4
    case SetMonitor => 3
    case Recheck => if ready then 2 else 6
    case Mwait => if ready then 1 else 5
    case Asleep => if s.triggered then 5 else 0
    case Exited => 0
  }

  /** To be throttled on a processor with MWAIT. */
  predicate MustSleep(s: Throttle) { s.flag && !s.shouldStop && s.pc != Exited && s.hasMwait }

  lemma StepTowardsSleep(s: Throttle)
    requires MustSleep(s)
    ensures MustSleep(ThreadStep(s))
    ensures StepsToSleep(s) > 0 ==> StepsToSleep(ThreadStep(s)) < StepsToSleep(s)
    ensures StepsToSleep(s) == 0 ==> ThreadStep(s) == s
  {
  }

  lemma {:induction false} UndisturbedSleeps(s: Throttle, quiet: seq<Event>)
    requires MustSleep(s) && forall n | 0 <= n < |quiet| :: quiet[n] == Step
    ensures MustSleep(Run(s, quiet))
    ensures StepsToSleep(Run(s, quiet)) == 0 || StepsToSleep(Run(s, quiet)) + |quiet| <= StepsToSleep(s)
  {
    if quiet != [] {
      hide StepsToSleep, MustSleep, ThreadStep;
      var k := |quiet| - 1;
      UndisturbedSleeps(s, quiet[..k]);
      StepTowardsSleep(Run(s, quiet[..k]));
    }
  }

  lemma {:induction false} RunAppends(s: Throttle, a: seq<Event>, b: seq<Event>)
    ensures Run(s, a + b) == Run(Run(s, a), b)
  {
    if b == [] {
      assert a + b == a;
    } else {
      var k := |b| - 1;
      RunAppends(s, a, b[..k]);
      assert (a + b)[..|a + b| - 1] == a + b[..k];
    }
  }

  /** Main result: on a processor with MWAIT, after any run in which the flag is never cleared and no stop requested,
      six undisturbed steps are enough for the thread to sleep on an untriggered monitor, wherever it was. */
  lemma ThrottledThreadSleeps(s: Throttle, tr: seq<Event>, quiet: seq<Event>)
    requires MustSleep(s)
    requires forall n | 0 <= n < |tr| :: tr[n] != Store(false) && tr[n] != RequestStop
    requires |quiet| >= 6 && forall n | 0 <= n < |quiet| :: quiet[n] == Step
    ensures var s' := Run(s, tr + quiet); s'.pc == Asleep && !s'.triggered && s'.flag
  {
    SetFlagThrottles(s, tr);
    KeepsMwait(s, tr);
    UndisturbedSleeps(Run(s, tr), quiet);
    RunAppends(s, tr, quiet);
  }

  lemma {:induction false} KeepsMwait(s: Throttle, tr: seq<Event>)
    ensures Run(s, tr).hasMwait == s.hasMwait
  {
    if tr != [] {
      KeepsMwait(s, tr[..|tr| - 1]);
      StepKeepsMwait(Run(s, tr[..|tr| - 1]), tr[|tr| - 1]);
      hide Apply;
    }
  }

  lemma StepKeepsMwait(s: Throttle, e: Event)
    ensures Apply(s, e).hasMwait == s.hasMwait
  {
  }

  /** Without MWAIT the thread never arms a monitor or sleeps: it spins on the flag. */
  lemma {:induction false} SpinsWithoutMwait(s: Throttle, tr: seq<Event>)
    requires Boot(s) && !s.hasMwait
    ensures Run(s, tr).pc in {WaitEvent, CheckFlag, Exited} && !Run(s, tr).hasMwait && !Run(s, tr).armed
  {
    if tr != [] { SpinsWithoutMwait(s, tr[..|tr| - 1]); }
  }

  // ---------------------------------------------------------------- stopping the thread

  lemma StopStep(s: Throttle, e: Event)
    requires Safe(s) && !s.flag && s.shouldStop && e != Store(true)
    ensures var s' := Apply(s, e);
            && Safe(s') && !s'.flag && s'.shouldStop && (s.pc == Exited ==> s'.pc == Exited)
            && StepsToWait(s'.pc) <= StepsToWait(s.pc)
            && (e == Step && s.pc != WaitEvent && s.pc != Exited ==> StepsToWait(s'.pc) < StepsToWait(s.pc))
            && (e == Step && s.pc == WaitEvent ==> s'.pc == Exited)
  {
  }

  /** A thread that is asked to stop while its flag is clear exits within four of its steps, and stays out. */
  lemma {:induction false} StoppedThreadExits(s: Throttle, tr: seq<Event>)
    requires Safe(s) && !s.flag && s.shouldStop && forall n | 0 <= n < |tr| :: tr[n] != Store(true)
    ensures var s' := Run(s, tr);
            && Safe(s') && !s'.flag && s'.shouldStop
            && (s'.pc == Exited || StepsToWait(s'.pc) + ThreadSteps(tr) <= StepsToWait(s.pc))
    ensures ThreadSteps(tr) >= 4 ==> Run(s, tr).pc == Exited
  {
    if tr != [] {
      var k := |tr| - 1;
      StoppedThreadExits(s, tr[..k]);
      StopStep(Run(s, tr[..k]), tr[k]);
    }
  }

  /** A thread that nobody asks to stop never exits. */
  lemma {:induction false} ExitsOnlyOnRequest(s: Throttle, tr: seq<Event>)
    requires s.pc != Exited && !s.shouldStop && forall n | 0 <= n < |tr| :: tr[n] != RequestStop
    ensures Run(s, tr).pc != Exited && !Run(s, tr).shouldStop
  {
    if tr != [] {
      ExitsOnlyOnRequest(s, tr[..|tr| - 1]);
      GoesOnUnlessStopped(Run(s, tr[..|tr| - 1]), tr[|tr| - 1]);
      hide Apply;
    }
  }

  lemma GoesOnUnlessStopped(s: Throttle, e: Event)
    requires s.pc != Exited && !s.shouldStop && e != RequestStop
    ensures Apply(s, e).pc != Exited && !Apply(s, e).shouldStop
  {
  }
}
