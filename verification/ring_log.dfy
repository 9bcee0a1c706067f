/** The ring buffers refine a log: a controller that keeps every committed pair of samples, newest first, and has no
    ring at all, takes the same decisions in every run. */
module RingLog {
  import opened Machine
  import opened Lms
  import opened LmsTheorems
  import opened Units
  import opened Split
  import opened Controller

  // ---------------------------------------------------------------- the controller with a log

  /** One half of the core without its history. */
  datatype TapRecord = TapRecord(count: nat, used: nat, weights: seq<real>, next: int, prev: int, periodLeft: nat)

  type Tap = a: TapRecord | |a.weights| == HIST_SIZE witness TapRecord(0, 0, [0.0, 0.0, 0.0, 0.0, 0.0], 0, 0, 0)

  /** The log holds the (read, write) samples of all committed passes, newest first, behind it the zeros the
      histories start with; phase counts commits modulo the history size. */
  datatype LogCoreRecord = LogCoreRecord(
    log: seq<(nat, nat)>,
    phase: nat,
    read: Tap,
    write: Tap,
    throttled: bool,
    counting: bool,
    initialBw: nat,
    maxBw: nat)

  type LogCore = a: LogCoreRecord | |a.log| >= HIST_SIZE - 1 && a.phase < HIST_SIZE
    witness LogCoreRecord([(0, 0), (0, 0), (0, 0), (0, 0)], 0,
                          TapRecord(0, 0, [0.0, 0.0, 0.0, 0.0, 0.0], 0, 0, 0),
                          TapRecord(0, 0, [0.0, 0.0, 0.0, 0.0, 0.0], 0, 0, 0), false, false, 0, 0)

  function Reads(log: seq<(nat, nat)>): (r: seq<nat>)
    requires |log| >= HIST_SIZE - 1
    ensures |r| == HIST_SIZE - 1
  {
    seq(HIST_SIZE - 1, j requires 0 <= j < HIST_SIZE - 1 => log[j].0)
  }

  function Writes(log: seq<(nat, nat)>): (r: seq<nat>)
    requires |log| >= HIST_SIZE - 1
    ensures |r| == HIST_SIZE - 1
  {
    seq(HIST_SIZE - 1, j requires 0 <= j < HIST_SIZE - 1 => log[j].1)
  }

  function TapMetered(a: Tap, count: nat): Tap { a.(count := count, used := Sub64(count, a.count)) }

  /** The estimate from the current sample and the last four committed ones. */
  function TapEstimated(a: Tap, past: seq<nat>, initialBw: nat): Tap
    requires |past| == HIST_SIZE - 1
  {
    a.(next := Truncate(Dot(a.weights, [a.used] + past, HIST_SIZE)) + initialBw)
  }

  /** The update as it acts on the log: after p commits weight i learns from the sample of age (p - i) mod 5. */
  function WindowUpdate(w: seq<real>, window: seq<nat>, phase: nat, e: int): (r: seq<real>)
    requires |w| == |window| && phase < |w|
    ensures |r| == |w|
  {
    var n := Norm64(window);
    if n == 0 then w
    else seq(|w|, i requires 0 <= i < |w| => w[i] + Nudge(e, window[Slot(phase, i, |w|)], n))
  }

  function TapCommitted(a: Tap, past: seq<nat>, phase: nat, allocation: nat, t: nat): Tap
    requires RegulationTime(t) && |past| == HIST_SIZE - 1 && phase < HIST_SIZE
  {
    a.(weights := WindowUpdate(a.weights, [a.used] + past, phase, Error(a.used, a.prev)), prev := a.next,
       periodLeft := MbToEvents(allocation, t))
  }

  function LogPass(a: LogCore, readEvents: nat, writeEvents: nat, t: nat): (LogCore, Verdict)
    requires RegulationTime(t)
  {
    var r := TapEstimated(TapMetered(a.read, EventsToMb(readEvents, t)), Reads(a.log), a.initialBw);
    var w0 := TapMetered(a.write, EventsToMb(writeEvents, t));
    if r.next < 0 then
      (a.(read := r.(weights := Halve(r.weights)), write := w0, counting := false), ReadRejected)
    else
      var w := TapEstimated(w0, Writes(a.log), a.initialBw);
      if w.next < 0 then
        (a.(read := r, write := w.(weights := Halve(w.weights)), counting := false), WriteRejected)
      else
        var (x, y) := Allocate(a.maxBw, r.next, w.next);
        (a.(log := [(r.used, w.used)] + a.log, phase := NextSlot(a.phase),
            read := TapCommitted(r, Reads(a.log), a.phase, x, t),
            write := TapCommitted(w, Writes(a.log), a.phase, y, t),
            throttled := false, counting := true), Committed(x, y))
  }

  function LogStep(a: LogCore, e: CoreEvent, t: nat): LogCore
    requires RegulationTime(t)
  {
    match e
    case Control(readEvents, writeEvents) => LogPass(a, readEvents, writeEvents, t).0
    case Grant(budget) => a.(read := a.read.(periodLeft := budget))
    case Flag(on) => a.(throttled := on)
    case Begin => a.(read := a.read.(next := 0, prev := 0), write := a.write.(next := 0, prev := 0), counting := true)
    case End => a.(counting := false)
  }

  function LogRun(a: LogCore, run: seq<CoreEvent>, t: nat): LogCore
    requires RegulationTime(t)
  {
    if run == [] then a else LogStep(LogRun(a, run[..|run| - 1], t), run[|run| - 1], t)
  }

  function FreshLog(initialBw: nat, maxBw: nat, t: nat): LogCore
    requires RegulationTime(t)
  {
    var a := TapRecord(0, 0, InitialWeights(), 0, 0, FirstBudget(initialBw, t));
    LogCoreRecord([(0, 0), (0, 0), (0, 0), (0, 0)], 0, a, a, false, false, initialBw, maxBw)
  }

  // ---------------------------------------------------------------- the simulation relation

  /** All slots of the ring but the current one hold, by age, the newest committed samples. */
  ghost predicate TapRefines(ch: Channel, ri: nat, a: Tap, past: seq<nat>)
    requires ri < HIST_SIZE && |past| == HIST_SIZE - 1
  {
    && Recent(ch.hist, ri)[1..] == past
    && a == TapRecord(ch.countNew, ch.used, ch.weights, ch.next, ch.prev, ch.periodLeft)
  }

  ghost predicate Refines(c: Core, a: LogCore)
  {
    && a.phase == c.ri
    && TapRefines(c.read, c.ri, a.read, Reads(a.log))
    && TapRefines(c.write, c.ri, a.write, Writes(a.log))
    && a.throttled == c.throttled && a.counting == c.counting
    && a.initialBw == c.initialBw && a.maxBw == c.maxBw
  }

  /** With the current sample in slot ri, the ring read by age is that sample followed by the past. */
  lemma CurrentWindow(h: seq<nat>, ri: nat, used: nat)
    requires ri < |h|
    ensures Recent(h[ri := used], ri) == [used] + Recent(h, ri)[1..]
  {
  }

  /** Advancing the ring makes every sample one pass older. */
  lemma AdvanceRing(h: seq<nat>, ri: nat)
    requires ri < |h| == HIST_SIZE
    ensures Recent(h, NextSlot(ri))[1..] == Recent(h, ri)[..HIST_SIZE - 1]
  {
  }

  lemma SlotsByAge(x: seq<nat>, ri: nat, i: nat)
    requires ri < |x| && i < |x|
    ensures x[i] == Recent(x, ri)[Slot(ri, i, |x|)]
  {
    SlotInvolution(ri, i, |x|);
  }

  lemma NormByAge(x: seq<nat>, ri: nat)
    requires ri < |x|
    ensures Norm64(Recent(x, ri)) == Norm64(x)
  {
    SumRecent(ShiftedSquare, x, ri);
  }

  lemma WeightByAge(w: seq<real>, x: seq<nat>, ri: nat, e: int, i: nat)
    requires |w| == |x| && ri < |x| && i < |w|
    ensures Update(w, x, e)[i] == WindowUpdate(w, Recent(x, ri), ri, e)[i]
  {
    NormByAge(x, ri);
    SlotsByAge(x, ri, i);
    hide Nudge, Norm64, Recent, Slot;
  }

  lemma UpdateByAge(w: seq<real>, x: seq<nat>, ri: nat, e: int)
    requires |w| == |x| && ri < |x|
    ensures Update(w, x, e) == WindowUpdate(w, Recent(x, ri), ri, e)
  {
    hide Update, WindowUpdate, Recent;
    forall i: nat | i < |w|
      ensures Update(w, x, e)[i] == WindowUpdate(w, Recent(x, ri), ri, e)[i]
    {
      WeightByAge(w, x, ri, e, i);
    }
  }

  lemma EstimateRefines(ch: Channel, ri: nat, a: Tap, past: seq<nat>, initialBw: nat)
    requires ri < HIST_SIZE && |past| == HIST_SIZE - 1 && TapRefines(ch, ri, a, past)
    ensures TapRefines(Estimated(ch, ri, initialBw), ri, TapEstimated(a, past, initialBw), past)
    ensures Recent(Estimated(ch, ri, initialBw).hist, ri) == [ch.used] + past
  {
    CurrentWindow(ch.hist, ri, ch.used);
  }

  lemma CommitRefines(ch: Channel, ri: nat, a: Tap, past: seq<nat>, allocation: nat, t: nat, past': seq<nat>)
    requires RegulationTime(t) && ri < HIST_SIZE && |past| == HIST_SIZE - 1 && TapRefines(ch, ri, a, past)
    requires Recent(ch.hist, ri) == [ch.used] + past && past' == ([ch.used] + past)[..HIST_SIZE - 1]
    ensures TapRefines(Learned(Funded(ch, allocation, t)), NextSlot(ri),
                       TapCommitted(a, past, ri, allocation, t), past')
  {
    hide MbToEvents, Update, WindowUpdate, Recent;
    AdvanceRing(ch.hist, ri);
    UpdateByAge(ch.weights, ch.hist, ri, Error(ch.used, ch.prev));
  }

  lemma LogGrows(log: seq<(nat, nat)>, r: nat, w: nat)
    requires |log| >= HIST_SIZE - 1
    ensures Reads([(r, w)] + log) == ([r] + Reads(log))[..HIST_SIZE - 1]
    ensures Writes([(r, w)] + log) == ([w] + Writes(log))[..HIST_SIZE - 1]
  {
  }

  lemma PassRefines(c: Core, a: LogCore, readEvents: nat, writeEvents: nat, t: nat)
    requires RegulationTime(t) && Refines(c, a)
    ensures Pass(c, readEvents, writeEvents, t).1 == LogPass(a, readEvents, writeEvents, t).1
    ensures Refines(Pass(c, readEvents, writeEvents, t).0, LogPass(a, readEvents, writeEvents, t).0)
  {
    hide EventsToMb, MbToEvents, Sub64, Allocate, Update, Predict, Dot, Recent, WindowUpdate, Reads, Writes;
    var past, past2 := Reads(a.log), Writes(a.log);
    var r0, w0 := Metered(c.read, EventsToMb(readEvents, t)), Metered(c.write, EventsToMb(writeEvents, t));
    var ra, wa := TapMetered(a.read, EventsToMb(readEvents, t)), TapMetered(a.write, EventsToMb(writeEvents, t));
    EstimateRefines(r0, c.ri, ra, past, c.initialBw);
    EstimateRefines(w0, c.ri, wa, past2, c.initialBw);
    var r, w := Estimated(r0, c.ri, c.initialBw), Estimated(w0, c.ri, c.initialBw);
    if r.next >= 0 && w.next >= 0 {
      var (x, y) := Allocate(c.maxBw, r.next, w.next);
      LogGrows(a.log, r.used, w.used);
      CommitRefines(r, c.ri, TapEstimated(ra, past, c.initialBw), past, x, t, Reads([(r.used, w.used)] + a.log));
      CommitRefines(w, c.ri, TapEstimated(wa, past2, c.initialBw), past2, y, t, Writes([(r.used, w.used)] + a.log));
    }
  }

  lemma StepRefines(c: Core, a: LogCore, e: CoreEvent, t: nat)
    requires RegulationTime(t) && Refines(c, a)
    ensures Refines(CoreStep(c, e, t), LogStep(a, e, t))
  {
    hide Pass, LogPass, Recent, Reads, Writes;
    if e.Control? { PassRefines(c, a, e.readEvents, e.writeEvents, t); }
  }

  lemma {:induction false} RunRefines(c: Core, a: LogCore, run: seq<CoreEvent>, t: nat)
    requires RegulationTime(t) && Refines(c, a)
    ensures Refines(CoreRun(c, run, t), LogRun(a, run, t))
  {
    if run != [] {
      hide Refines;
      RunRefines(c, a, run[..|run| - 1], t);
      StepRefines(CoreRun(c, run[..|run| - 1], t), LogRun(a, run[..|run| - 1], t), run[|run| - 1], t);
    }
  }

  /** Main result: after every run of a fresh core, its next pass decides and allocates exactly like the controller
      with the unbounded log, whose estimates are built from the current sample and the last four committed ones. */
  lemma RingRefinesLog(initialBw: nat, maxBw: nat, run: seq<CoreEvent>, t: nat, readEvents: nat, writeEvents: nat)
    requires RegulationTime(t)
    ensures var c, a := CoreRun(FreshCore(initialBw, maxBw, t), run, t), LogRun(FreshLog(initialBw, maxBw, t), run, t);
            && Refines(c, a)
            && Pass(c, readEvents, writeEvents, t).1 == LogPass(a, readEvents, writeEvents, t).1
  {
    FreshRefines(initialBw, maxBw, t);
    RunRefines(FreshCore(initialBw, maxBw, t), FreshLog(initialBw, maxBw, t), run, t);
    PassRefines(CoreRun(FreshCore(initialBw, maxBw, t), run, t), LogRun(FreshLog(initialBw, maxBw, t), run, t),
                readEvents, writeEvents, t);
  }

  lemma FreshRefines(initialBw: nat, maxBw: nat, t: nat)
    requires RegulationTime(t)
    ensures Refines(FreshCore(initialBw, maxBw, t), FreshLog(initialBw, maxBw, t))
  {
  }

  // ---------------------------------------------------------------- the phase

  /** A committed pass makes the log longer and the phase move on; nothing else does. */
  lemma LogStepCounts(c: Core, a: LogCore, e: CoreEvent, t: nat)
    requires RegulationTime(t) && Refines(c, a)
    ensures var a' := LogStep(a, e, t);
            if Commits(c, e, t) then |a'.log| == |a.log| + 1 && a'.phase == NextSlot(a.phase)
            else a'.log == a.log && a'.phase == a.phase
  {
    hide Pass, Refines, EventsToMb, MbToEvents, Allocate, Reads, Writes, WindowUpdate, Dot;
    if e.Control? { PassRefines(c, a, e.readEvents, e.writeEvents, t); }
  }

  lemma {:induction false} LogRunCounts(c: Core, a: LogCore, run: seq<CoreEvent>, t: nat)
    requires RegulationTime(t) && Refines(c, a)
    ensures |LogRun(a, run, t).log| == |a.log| + CommitsIn(c, run, t)
    ensures LogRun(a, run, t).phase == (a.phase + CommitsIn(c, run, t)) % HIST_SIZE
  {
    hide Commits, LogStep, CoreStep, Refines;
    if run != [] {
      var k := |run| - 1;
      LogRunCounts(c, a, run[..k], t);
      RunRefines(c, a, run[..k], t);
      LogStepCounts(CoreRun(c, run[..k], t), LogRun(a, run[..k], t), run[k], t);
      NextModulo(a.phase + CommitsIn(c, run[..k], t));
    }
  }

  lemma NextModulo(p: nat)
    ensures NextSlot(p % HIST_SIZE) == (p + 1) % HIST_SIZE
  {
  }

  /** The phase, and with it the ring index, is the number of committed passes modulo the history size; the log holds
      exactly those passes and the zeros it started with. */
  lemma PhaseCountsCommits(initialBw: nat, maxBw: nat, run: seq<CoreEvent>, t: nat)
    requires RegulationTime(t)
    ensures var c, a := FreshCore(initialBw, maxBw, t), LogRun(FreshLog(initialBw, maxBw, t), run, t);
            var p := CommitsIn(c, run, t);
            && |a.log| == HIST_SIZE - 1 + p
            && a.phase == p % HIST_SIZE == CoreRun(c, run, t).ri
  {
    hide CommitsIn, CoreRun, LogRun, FirstBudget, TapRefines;
    var c, a := FreshCore(initialBw, maxBw, t), FreshLog(initialBw, maxBw, t);
    FreshRefines(initialBw, maxBw, t);
    RunRefines(c, a, run, t);
    LogRunCounts(c, a, run, t);
  }

  /** After p committed passes of a fresh core, an update of a history makes weight i learn from the sample of age
      (p - i) mod 5, while a prediction pairs it with the sample of age i. */
  lemma WeightMeetsAge(
      initialBw: nat, maxBw: nat, run: seq<CoreEvent>, t: nat, w: seq<real>, x: seq<nat>, e: int, i: nat)
    requires RegulationTime(t) && |w| == |x| == HIST_SIZE && i < HIST_SIZE && Norm64(x) > 0
    ensures var c := FreshCore(initialBw, maxBw, t);
            var p, ri := CommitsIn(c, run, t), CoreRun(c, run, t).ri;
            Update(w, x, e)[i] == w[i] + Nudge(e, Recent(x, ri)[(p - i) % HIST_SIZE], Norm64(x))
  {
    hide FreshCore, FreshLog, LogRun, CoreRun, CommitsIn, Nudge, Norm64, Recent;
    var c := FreshCore(initialBw, maxBw, t);
    PhaseCountsCommits(initialBw, maxBw, run, t);
    SlotsByAge(x, CoreRun(c, run, t).ri, i);
    SlotIsModulo(CoreRun(c, run, t).ri, i, HIST_SIZE);
    ModuloMinus(CommitsIn(c, run, t), i);
  }

  lemma ModuloMinus(p: nat, i: nat)
    ensures (p % HIST_SIZE - i) % HIST_SIZE == (p - i) % HIST_SIZE
  {
  }

  /** Every slot but the current one holds a read and a write of the same committed pass. */
  lemma SlotsPairUp(c: Core, a: LogCore, age: nat)
    requires Refines(c, a) && 1 <= age < HIST_SIZE
    ensures var slot := Slot(c.ri, age, HIST_SIZE); (c.read.hist[slot], c.write.hist[slot]) == a.log[age - 1]
  {
    assert Recent(c.read.hist, c.ri)[1..][age - 1] == Reads(a.log)[age - 1];
    assert Recent(c.write.hist, c.ri)[1..][age - 1] == Writes(a.log)[age - 1];
  }
}
