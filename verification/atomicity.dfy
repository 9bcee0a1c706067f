/** The loops over all cores, run without interruption, are the single steps of the state machine one after another. */
module Atomicity {
  import opened Units
  import opened Controller
  import opened Regulation

  // ---------------------------------------------------------------- the enable switch

  /** The effect of a whole start or stop call. */
  function SwitchTo(p: Plant, on: bool, t: nat): Plant
    requires RegulationTime(t)
  {
    TouchAll(p.(enabled := on, master := if on then Running else Initial), if on then Begin else End, MAX_NO_CPUS, t)
  }

  /** n steps of the writer in a row. */
  function WriterRuns(s: Sys, n: nat): Sys { if n == 0 then s else WriterMoves(WriterRuns(s, n - 1)) }

  lemma {:induction false} WriterProgress(s: Sys, n: nat)
    requires 1 <= n <= MAX_NO_CPUS + 1 && (s.writer == Starting(0) || s.writer == Stopping(0))
    ensures var on, s' := s.writer.Starting?, WriterRuns(s, n);
            && s'.writer == (if on then Starting(n) else Stopping(n))
            && s' == s.(writer := s'.writer,
                        plant := TouchAll(s.plant.(master := if on then Running else Initial),
                                          if on then Begin else End, n - 1, s.t))
  {
    hide Touch;
    if n > 1 {
      WriterProgress(s, n - 1);
    } else {
      assert WriterRuns(s, 0) == s;
    }
  }

  /** What a write to the switch does as a whole: a malformed or large value, and the value that the switch has, do
      nothing; any other switches. */
  function WriteOutcome(p: Plant, input: Input, t: nat): Plant
    requires RegulationTime(t)
  {
    if input.Malformed? || input.value > 1 || (input.value == 1) == p.enabled then p
    else SwitchTo(p, input.value == 1, t)
  }

  lemma {:induction false} IdleWriterRests(s: Sys, n: nat)
    requires s.writer.Idle?
    ensures WriterRuns(s, n) == s
  {
    if n > 0 { IdleWriterRests(s, n - 1); }
  }

  /** Any write that finds the writer idle and that nothing interrupts does exactly that, and ends. */
  lemma UninterruptedWrite(s: Sys, input: Input)
    requires s.writer.Idle?
    ensures WriterRuns(WriteMoves(s, input), MAX_NO_CPUS + 2) == s.(plant := WriteOutcome(s.plant, input, s.t))
  {
    var s1 := WriteMoves(s, input);
    if Accepts(s, input) {
      WriterProgress(s1, MAX_NO_CPUS + 1);
      hide TouchAll;
      assert WriterRuns(s1, MAX_NO_CPUS + 2) == WriterMoves(WriterRuns(s1, MAX_NO_CPUS + 1));
    } else {
      IdleWriterRests(s, MAX_NO_CPUS + 2);
    }
  }

  /** What a pass over all cpus has done to each core. */
  lemma {:induction false} TouchAllTouches(p: Plant, e: CoreEvent, n: nat, t: nat, cpu: nat)
    requires n <= MAX_NO_CPUS && RegulationTime(t) && cpu <= MAX_NO_CPUS
    ensures var q := TouchAll(p, e, n, t);
            && q.pool == p.pool && q.master == p.master && q.enabled == p.enabled
            && q.cores[cpu] == if 1 <= cpu <= n then CoreStep(p.cores[cpu], e, t) else p.cores[cpu]
  {
    hide CoreStep;
    if n > 0 { TouchAllTouches(p, e, n - 1, t, cpu); }
  }

  /** After a write of zero or one, whatever it found: the switch has that value, the master state runs exactly if it is
      one and the two agreed before, and a write that changed the switch has started or stopped all counters, a start
      with all estimates at zero. The pool is left alone, and nobody is throttled or released. */
  lemma WriteSwitches(p: Plant, input: Input, t: nat, cpu: nat)
    requires RegulationTime(t) && Regulated(cpu) && input.Parsed? && input.value <= 1
    ensures var q, on := WriteOutcome(p, input, t), input.value == 1;
            var c, c' := p.cores[cpu], q.cores[cpu];
            && q.enabled == on && q.pool == p.pool && c'.throttled == c.throttled
            && (p.master == (if p.enabled then Running else Initial) ==> q.master == if on then Running else Initial)
            && (p.enabled != on ==> c'.counting == on)
            && (!p.enabled && on ==> c'.read.next == c'.read.prev == c'.write.next == c'.write.prev == 0)
  {
    hide Pass;
    var on := input.value == 1;
    if on != p.enabled {
      TouchAllTouches(p.(enabled := on, master := if on then Running else Initial), if on then Begin else End,
                      MAX_NO_CPUS, t, cpu);
    }
    hide TouchAll;
  }

  // ---------------------------------------------------------------- the master's passes

  /** n steps of the master in a row; at cpu k it reads the counts with that index. */
  function MasterRuns(s: Sys, readCounts: seq<nat>, writeCounts: seq<nat>, n: nat): Sys
    requires |readCounts| == |writeCounts| == MAX_NO_CPUS + 1
  {
    if n == 0 then s
    else
      var q := MasterRuns(s, readCounts, writeCounts, n - 1);
      var k := if q.pc.Sweep? && Regulated(q.pc.cpu) then q.pc.cpu else 0;
      MasterMoves(q, readCounts[k], writeCounts[k])
  }

  lemma {:induction false} StartupProgress(s: Sys, readCounts: seq<nat>, writeCounts: seq<nat>, n: nat)
    requires |readCounts| == |writeCounts| == MAX_NO_CPUS + 1 && n <= MAX_NO_CPUS
    requires s.pc == Startup(1) || s.pc == Release(1)
    ensures MasterRuns(s, readCounts, writeCounts, n)
            == s.(pc := if s.pc.Startup? then Startup(n + 1) else Release(n + 1),
                  plant := TouchAll(s.plant, Flag(s.pc.Startup?), n, s.t))
  {
    hide Touch;
    if n > 0 { StartupProgress(s, readCounts, writeCounts, n - 1); }
  }

  /** The step with which a pass over all cpus ends. */
  lemma LastStep(s: Sys, readCounts: seq<nat>, writeCounts: seq<nat>)
    requires |readCounts| == |writeCounts| == MAX_NO_CPUS + 1
    ensures var q := MasterRuns(s, readCounts, writeCounts, MAX_NO_CPUS);
            q.pc in {Startup(MAX_NO_CPUS + 1), Release(MAX_NO_CPUS + 1), Sweep(MAX_NO_CPUS + 1)} ==>
              MasterRuns(s, readCounts, writeCounts, MAX_NO_CPUS + 1)
              == q.(pc := if q.pc.Startup? then AwaitStart else LoopTop)
  {
    hide ControlOn, Touch;
    var q := MasterRuns(s, readCounts, writeCounts, MAX_NO_CPUS);
    assert MasterRuns(s, readCounts, writeCounts, MAX_NO_CPUS + 1)
        == MasterMoves(q, readCounts[if q.pc.Sweep? && Regulated(q.pc.cpu) then q.pc.cpu else 0],
                       writeCounts[if q.pc.Sweep? && Regulated(q.pc.cpu) then q.pc.cpu else 0]);
  }

  /** The startup pass throttles every regulated core, the release pass releases every one. */
  lemma UninterruptedStartup(s: Sys, readCounts: seq<nat>, writeCounts: seq<nat>)
    requires |readCounts| == |writeCounts| == MAX_NO_CPUS + 1
    requires s.pc == Startup(1) || s.pc == Release(1)
    ensures MasterRuns(s, readCounts, writeCounts, MAX_NO_CPUS + 1)
            == s.(pc := if s.pc.Startup? then AwaitStart else LoopTop,
                  plant := TouchAll(s.plant, Flag(s.pc.Startup?), MAX_NO_CPUS, s.t))
  {
    hide TouchAll, MasterRuns;
    StartupProgress(s, readCounts, writeCounts, MAX_NO_CPUS);
    LastStep(s, readCounts, writeCounts);
  }

  lemma {:induction false} SweepProgress(s: Sys, readCounts: seq<nat>, writeCounts: seq<nat>, n: nat)
    requires |readCounts| == |writeCounts| == MAX_NO_CPUS + 1 && n <= MAX_NO_CPUS && s.pc == Sweep(1)
    ensures MasterRuns(s, readCounts, writeCounts, n)
            == s.(pc := Sweep(n + 1), plant := SweepTo(s.plant, s.online, readCounts, writeCounts, n, s.t))
  {
    hide ControlOn;
    if n > 0 { SweepProgress(s, readCounts, writeCounts, n - 1); }
  }

  /** A sweep visits every online core once, in order, and returns to the top of the loop. */
  lemma UninterruptedSweep(s: Sys, readCounts: seq<nat>, writeCounts: seq<nat>)
    requires |readCounts| == |writeCounts| == MAX_NO_CPUS + 1 && s.pc == Sweep(1)
    ensures MasterRuns(s, readCounts, writeCounts, MAX_NO_CPUS + 1)
            == s.(pc := LoopTop, plant := SweepTo(s.plant, s.online, readCounts, writeCounts, MAX_NO_CPUS, s.t))
  {
    hide SweepTo, MasterRuns;
    SweepProgress(s, readCounts, writeCounts, MAX_NO_CPUS);
    LastStep(s, readCounts, writeCounts);
  }
}
