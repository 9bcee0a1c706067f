/** One core under control: what a master pass does to it, as a function on values and as the code on fields. */
module Controller {
  import opened Machine
  import opened Lms
  import opened Units
  import opened Split

  // ---------------------------------------------------------------- values

  /** The read or the write half of a core's record. */
  datatype ChannelRecord = ChannelRecord(
    countOld: nat,
    countNew: nat,
    used: nat,
    hist: seq<nat>,
    weights: seq<real>,
    next: int,
    prev: int,
    periodLeft: nat)

  type Channel = ch: ChannelRecord | |ch.hist| == |ch.weights| == HIST_SIZE
    witness ChannelRecord(0, 0, 0, [0, 0, 0, 0, 0], [0.0, 0.0, 0.0, 0.0, 0.0], 0, 0, 0)

  datatype CoreRecord = CoreRecord(
    read: Channel,
    write: Channel,
    ri: nat,
    throttled: bool,
    counting: bool,
    initialBw: nat,
    maxBw: nat)

  type Core = c: CoreRecord | c.ri < HIST_SIZE
    witness CoreRecord(
      ChannelRecord(0, 0, 0, [0, 0, 0, 0, 0], [0.0, 0.0, 0.0, 0.0, 0.0], 0, 0, 0),
      ChannelRecord(0, 0, 0, [0, 0, 0, 0, 0], [0.0, 0.0, 0.0, 0.0, 0.0], 0, 0, 0), 0, false, false, 0, 0)

  datatype Side = ReadSide | WriteSide

  function ChannelOf(c: Core, side: Side): Channel { if side.ReadSide? then c.read else c.write }

  /** How a master pass over one core ends. */
  datatype Verdict = ReadRejected | WriteRejected | Committed(readAllocation: nat, writeAllocation: nat)

  function EmptyHistory(): (h: seq<nat>)
    ensures |h| == HIST_SIZE
  {
    seq(HIST_SIZE, i => 0)
  }

  /** The first budget of both counters: the initial bandwidth in events, which passes through the C int in which the
      counter's sampling period is handed over. */
  function FirstBudget(initialBw: nat, t: nat): nat
    requires RegulationTime(t)
  {
    Low64(ToS32(MbToEvents(ToS32(initialBw), t)))
  }

  function FreshChannel(budget: nat): Channel
  {
    ChannelRecord(0, 0, 0, EmptyHistory(), InitialWeights(), 0, 0, budget)
  }

  /** A core as module initialization leaves it. */
  function FreshCore(initialBw: nat, maxBw: nat, t: nat): Core
    requires RegulationTime(t)
  {
    var ch := FreshChannel(FirstBudget(initialBw, t));
    CoreRecord(ch, ch, 0, false, false, initialBw, maxBw)
  }

  // ---------------------------------------------------------------- one master pass, on values

  /** The cumulative reading moves on; the usage is the unsigned difference of the readings. */
  function Metered(ch: Channel, count: nat): Channel
  {
    ch.(countOld := ch.countNew, countNew := count, used := Sub64(count, ch.countNew))
  }

  /** The usage goes into the current slot and the next usage is predicted. */
  function Estimated(ch: Channel, ri: nat, initialBw: nat): Channel
    requires ri < HIST_SIZE
  {
    var h := ch.hist[ri := ch.used];
    ch.(hist := h, next := Truncate(Predict(h, ch.weights, ri)) + initialBw)
  }

  /** The reaction to a negative estimate. */
  function ScaledDown(ch: Channel): Channel { ch.(weights := Halve(ch.weights)) }

  function Funded(ch: Channel, allocation: nat, t: nat): Channel
    requires RegulationTime(t)
  {
    ch.(periodLeft := MbToEvents(allocation, t))
  }

  /** The error of the previous estimate: the unsigned difference, read as an s64. */
  function Error(used: nat, prev: int): int { ToS64(Low64(used - prev)) }

  /** The weights learn from that error, and the new estimate replaces the previous one. */
  function Learned(ch: Channel): Channel
  {
    ch.(weights := Update(ch.weights, ch.hist, Error(ch.used, ch.prev)), prev := ch.next)
  }

  function NextSlot(ri: nat): nat { if ri + 1 == HIST_SIZE then 0 else ri + 1 }

  /** One master pass over one core, given the cumulative event counts of its two counters. */
  function Pass(c: Core, readEvents: nat, writeEvents: nat, t: nat): (Core, Verdict)
    requires RegulationTime(t)
  {
    var r := Estimated(Metered(c.read, EventsToMb(readEvents, t)), c.ri, c.initialBw);
    var w0 := Metered(c.write, EventsToMb(writeEvents, t));
    if r.next < 0 then (c.(read := ScaledDown(r), write := w0, counting := false), ReadRejected)
    else
      var w := Estimated(w0, c.ri, c.initialBw);
      if w.next < 0 then (c.(read := r, write := ScaledDown(w), counting := false), WriteRejected)
      else
        var (a, b) := Allocate(c.maxBw, r.next, w.next);
        (Commit(c, r, w, a, b, t), Committed(a, b))
  }

  function Commit(c: Core, r: Channel, w: Channel, a: nat, b: nat, t: nat): Core
    requires RegulationTime(t)
  {
    c.(read := Learned(Funded(r, a, t)), write := Learned(Funded(w, b, t)),
       ri := NextSlot(c.ri), throttled := false, counting := true)
  }

  /** What a pass credits to the shared pool. */
  function Credit(c: Core, v: Verdict): int
  {
    if v.Committed? then c.maxBw - (v.readAllocation + v.writeAllocation) else 0
  }

  // ---------------------------------------------------------------- everything that happens to a core

  datatype CoreEvent =
    | Control(readEvents: nat, writeEvents: nat)
    | Grant(budget: nat)
    | Flag(on: bool)
    | Begin
    | End

  function Restarted(ch: Channel): Channel { ch.(next := 0, prev := 0) }

  function CoreStep(c: Core, e: CoreEvent, t: nat): Core
    requires RegulationTime(t)
  {
    match e
    case Control(readEvents, writeEvents) => Pass(c, readEvents, writeEvents, t).0
    case Grant(budget) => c.(read := c.read.(periodLeft := budget))
    case Flag(on) => c.(throttled := on)
    case Begin => c.(read := Restarted(c.read), write := Restarted(c.write), counting := true)
    case End => c.(counting := false)
  }

  /** The core after a whole run of events. */
  function CoreRun(c: Core, run: seq<CoreEvent>, t: nat): Core
    requires RegulationTime(t)
  {
    if run == [] then c else CoreStep(CoreRun(c, run[..|run| - 1], t), run[|run| - 1], t)
  }

  /** This event is a pass, and it commits. */
  predicate Commits(c: Core, e: CoreEvent, t: nat)
    requires RegulationTime(t)
  {
    e.Control? && Pass(c, e.readEvents, e.writeEvents, t).1.Committed?
  }

  /** The number of committed passes in a run. */
  function CommitsIn(c: Core, run: seq<CoreEvent>, t: nat): nat
    requires RegulationTime(t)
  {
    if run == [] then 0
    else
      var k := |run| - 1;
      CommitsIn(c, run[..k], t) + if Commits(CoreRun(c, run[..k], t), run[k], t) then 1 else 0
  }

  lemma CommitReleases(c: Core, e: CoreEvent, t: nat)
    requires RegulationTime(t) && Commits(c, e, t)
    ensures !CoreStep(c, e, t).throttled
  {
    hide EventsToMb, MbToEvents, Predict, Update, Allocate;
  }

  // ---------------------------------------------------------------- machine ranges

  predicate ChannelFits(ch: Channel) { AllBelow(ch.hist, S32) && Abs(ch.prev) < U32 }

  /** The ranges in which nothing in a pass wraps around. */
  predicate CoreFits(c: Core)
  {
    ChannelFits(c.read) && ChannelFits(c.write) && c.initialBw < S32 && c.maxBw < S32
  }

  /** The usage metered by this reading, and the prediction made from it, fit a C int. */
  predicate SampleFits(ch: Channel, ri: nat, count: nat)
    requires ri < HIST_SIZE
  {
    var m := Metered(ch, count);
    m.used < S32 && FitsInt(Predict(m.hist[ri := m.used], m.weights, ri))
  }

  predicate PassFits(c: Core, readEvents: nat, writeEvents: nat, t: nat)
    requires RegulationTime(t)
  {
    && CoreFits(c)
    && SampleFits(c.read, c.ri, EventsToMb(readEvents, t))
    && (Estimated(Metered(c.read, EventsToMb(readEvents, t)), c.ri, c.initialBw).next >= 0 ==>
          SampleFits(c.write, c.ri, EventsToMb(writeEvents, t)))
  }

  lemma TruncateFits(x: real)
    requires FitsInt(x)
    ensures -0x8000_0000 <= Truncate(x) < 0x8000_0000
  {
  }

  /** A pass whose samples fit keeps the ranges, so a run whose samples fit never wraps. */
  lemma PassKeepsRanges(c: Core, readEvents: nat, writeEvents: nat, t: nat)
    requires RegulationTime(t) && PassFits(c, readEvents, writeEvents, t)
    ensures CoreFits(Pass(c, readEvents, writeEvents, t).0)
  {
    hide EventsToMb, MbToEvents, Predict, Update, Allocate;
    var r := Estimated(Metered(c.read, EventsToMb(readEvents, t)), c.ri, c.initialBw);
    var w := Estimated(Metered(c.write, EventsToMb(writeEvents, t)), c.ri, c.initialBw);
    TruncateFits(Predict(r.hist, r.weights, c.ri));
    if r.next >= 0 { TruncateFits(Predict(w.hist, w.weights, c.ri)); }
  }
}
