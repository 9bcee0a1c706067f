/** The core record as the master and the handlers update it in place. */
module CoreInfos {
  import opened Machine
  import opened Lms
  import opened Units
  import opened Split
  import opened Controller

  class CoreInfo {
    var readCountNew: nat
    var readCountOld: nat
    var readCountUsed: nat
    var writeCountNew: nat
    var writeCountOld: nat
    var writeCountUsed: nat
    const readEventHist: array<nat>
    const writeEventHist: array<nat>
    /** Ring index, shared by both histories. */
    var ri: nat
    var throttlerTask: bool
    const weightMatrix: array<real>
    const writeWeightMatrix: array<real>
    var nextEstimate: int
    var prevEstimate: int
    var writeNextEstimate: int
    var writePrevEstimate: int
    const initialBwMb: nat
    const maxBwLimitMb: nat
    /** The two counters: their remaining budgets, and whether they count. */
    var readPeriodLeft: nat
    var writePeriodLeft: nat
    var counting: bool

    /** A core as module initialization sets it up: both counters start with the initial bandwidth as their budget. */
    constructor (initialBw: nat, maxBw: nat, t: nat)
      requires RegulationTime(t)
      ensures Valid() && State() == FreshCore(initialBw, maxBw, t)
      ensures fresh(Repr())
    {
      hide FirstBudget;
      readCountNew, readCountOld, readCountUsed := 0, 0, 0;
      writeCountNew, writeCountOld, writeCountUsed := 0, 0, 0;
      readEventHist := new nat[HIST_SIZE](i => 0);
      writeEventHist := new nat[HIST_SIZE](i => 0);
      weightMatrix := new real[HIST_SIZE](i => 0.0);
      writeWeightMatrix := new real[HIST_SIZE](i => 0.0);
      ri, throttlerTask, counting := 0, false, false;
      nextEstimate, prevEstimate, writeNextEstimate, writePrevEstimate := 0, 0, 0, 0;
      initialBwMb, maxBwLimitMb := initialBw, maxBw;
      readPeriodLeft, writePeriodLeft := FirstBudget(initialBw, t), FirstBudget(initialBw, t);
      new;
      InitializeWeights(weightMatrix, true);
      InitializeWeights(writeWeightMatrix, true);
      assert readEventHist[..] == EmptyHistory() && writeEventHist[..] == EmptyHistory();
      assert weightMatrix[..] == InitialWeights() && writeWeightMatrix[..] == InitialWeights();
    }

    ghost function Repr(): set<object>
    {
      {this, readEventHist, writeEventHist, weightMatrix, writeWeightMatrix}
    }

    ghost predicate Valid()
      reads this
    {
      && ri < HIST_SIZE
      && readEventHist.Length == writeEventHist.Length == HIST_SIZE
      && weightMatrix.Length == writeWeightMatrix.Length == HIST_SIZE
      && readEventHist != writeEventHist && weightMatrix != writeWeightMatrix
    }

    ghost function ReadChannel(): Channel
      requires Valid()
      reads this, Repr()
    {
      ChannelRecord(readCountOld, readCountNew, readCountUsed, readEventHist[..], weightMatrix[..],
                    nextEstimate, prevEstimate, readPeriodLeft)
    }

    ghost function WriteChannel(): Channel
      requires Valid()
      reads this, Repr()
    {
      ChannelRecord(writeCountOld, writeCountNew, writeCountUsed, writeEventHist[..], writeWeightMatrix[..],
                    writeNextEstimate, writePrevEstimate, writePeriodLeft)
    }

    ghost function State(): Core
      requires Valid()
      reads this, Repr()
    {
      CoreRecord(ReadChannel(), WriteChannel(), ri, throttlerTask, counting, initialBwMb, maxBwLimitMb)
    }

    /** Stops the counters and reads them. */
    method SampleCounters(readEvents: nat, writeEvents: nat, t: nat)
      requires Valid() && RegulationTime(t)
      modifies `counting, `readCountOld, `readCountNew, `readCountUsed, `writeCountOld, `writeCountNew, `writeCountUsed
      ensures ReadChannel() == Metered(old(ReadChannel()), EventsToMb(readEvents, t))
      ensures WriteChannel() == Metered(old(WriteChannel()), EventsToMb(writeEvents, t))
      ensures !counting
    {
      hide Metered, EventsToMb;
      counting := false;
      SampleRead(readEvents, t);
      SampleWrite(writeEvents, t);
    }

    method SampleRead(readEvents: nat, t: nat)
      requires Valid() && RegulationTime(t)
      modifies `readCountOld, `readCountNew, `readCountUsed
      ensures ReadChannel() == Metered(old(ReadChannel()), EventsToMb(readEvents, t))
    {
      hide EventsToMb, Sub64;
      readCountOld := readCountNew;
      readCountNew := EventsToMb(readEvents, t);
      readCountUsed := Sub64(readCountNew, readCountOld);
    }

    method SampleWrite(writeEvents: nat, t: nat)
      requires Valid() && RegulationTime(t)
      modifies `writeCountOld, `writeCountNew, `writeCountUsed
      ensures WriteChannel() == Metered(old(WriteChannel()), EventsToMb(writeEvents, t))
    {
      hide EventsToMb, Sub64;
      writeCountOld := writeCountNew;
      writeCountNew := EventsToMb(writeEvents, t);
      writeCountUsed := Sub64(writeCountNew, writeCountOld);
    }

    method EstimateRead()
      requires Valid() && initialBwMb < S32
      requires FitsInt(Predict(readEventHist[..][ri := readCountUsed], weightMatrix[..], ri))
      modifies `nextEstimate, readEventHist
      ensures State() == old(State()).(read := Estimated(old(ReadChannel()), ri, initialBwMb))
    {
      hide Predict;
      readEventHist[ri] := readCountUsed;
      assert readEventHist[..] == old(readEventHist[..])[ri := readCountUsed];
      TruncateFits(Predict(readEventHist[..], weightMatrix[..], ri));
      SignedRoundTrip(Truncate(Predict(readEventHist[..], weightMatrix[..], ri)), initialBwMb);
      var estimate := Estimate(readEventHist, weightMatrix, ri);
      nextEstimate := ToS64(Low64(estimate + initialBwMb));
    }

    method EstimateWrite()
      requires Valid() && initialBwMb < S32
      requires FitsInt(Predict(writeEventHist[..][ri := writeCountUsed], writeWeightMatrix[..], ri))
      modifies `writeNextEstimate, writeEventHist
      ensures State() == old(State()).(write := Estimated(old(WriteChannel()), ri, initialBwMb))
    {
      hide Predict;
      writeEventHist[ri] := writeCountUsed;
      assert writeEventHist[..] == old(writeEventHist[..])[ri := writeCountUsed];
      TruncateFits(Predict(writeEventHist[..], writeWeightMatrix[..], ri));
      SignedRoundTrip(Truncate(Predict(writeEventHist[..], writeWeightMatrix[..], ri)), initialBwMb);
      var estimate := Estimate(writeEventHist, writeWeightMatrix, ri);
      writeNextEstimate := ToS64(Low64(estimate + initialBwMb));
    }

    /** The weights learn from the error of the previous estimates; then the ring moves on. */
    method Learn()
      requires Valid()
      modifies `ri, `prevEstimate, `writePrevEstimate, weightMatrix, writeWeightMatrix
      ensures Valid()
      ensures ReadChannel() == Learned(old(ReadChannel())) && WriteChannel() == Learned(old(WriteChannel()))
      ensures ri == NextSlot(old(ri))
    {
      hide Update;
      var readError := ToS64(Low64(readCountUsed - prevEstimate));
      var writeError := ToS64(Low64(writeCountUsed - writePrevEstimate));
      UpdateWeights(readError, readEventHist, weightMatrix);
      UpdateWeights(writeError, writeEventHist, writeWeightMatrix);
      ri := ri + 1;
      ri := if ri == HIST_SIZE then 0 else ri;
      prevEstimate := nextEstimate;
      writePrevEstimate := writeNextEstimate;
    }

    /** Hands out the two budgets, releases the core and restarts its counters. */
    method Fund(readAllocation: nat, writeAllocation: nat, t: nat)
      requires Valid() && RegulationTime(t)
      modifies `readPeriodLeft, `writePeriodLeft, `throttlerTask, `counting
      ensures ReadChannel() == Funded(old(ReadChannel()), readAllocation, t)
      ensures WriteChannel() == Funded(old(WriteChannel()), writeAllocation, t)
      ensures !throttlerTask && counting
    {
      hide MbToEvents;
      readPeriodLeft := MbToEvents(readAllocation, t);
      writePeriodLeft := MbToEvents(writeAllocation, t);
      throttlerTask := false;
      counting := true;
    }

    /** The committed end of a pass: split the limit, fund, release, learn. */
    method CommitPass(t: nat) returns (verdict: Verdict, credit: nat)
      requires Valid() && RegulationTime(t) && maxBwLimitMb < S32
      requires 0 <= nextEstimate < U32 && 0 <= writeNextEstimate < U32
      modifies Repr()
      ensures Valid()
      ensures var (a, b) := Allocate(maxBwLimitMb, old(nextEstimate), old(writeNextEstimate));
              && verdict == Committed(a, b) && credit == maxBwLimitMb - (a + b)
              && State() == Commit(old(State()), old(ReadChannel()), old(WriteChannel()), a, b, t)
    {
      hide Update, Allocate, MbToEvents;
      var readAllocation, writeAllocation;
      readAllocation, writeAllocation, credit := SplitLimit(maxBwLimitMb, nextEstimate, writeNextEstimate);
      Fund(readAllocation, writeAllocation, t);
      Learn();
      verdict := Committed(readAllocation, writeAllocation);
    }

    /** The master's pass over this core. A rejected pass leaves the core as it is: throttled if it was, counters
        stopped, ring index and budgets untouched. */
    method ControlStep(readEvents: nat, writeEvents: nat, t: nat) returns (verdict: Verdict, credit: nat)
      requires Valid() && RegulationTime(t) && PassFits(State(), readEvents, writeEvents, t)
      modifies Repr()
      ensures Valid()
      ensures (State(), verdict) == Pass(old(State()), readEvents, writeEvents, t)
      ensures credit == Credit(old(State()), verdict)
    {
      hide EventsToMb, MbToEvents, Update, Allocate, Predict, Halve, Learned, Funded;
      SampleCounters(readEvents, writeEvents, t);
      EstimateRead();
      TruncateFits(Predict(readEventHist[..], weightMatrix[..], ri));
      if nextEstimate < 0 {
        InitializeWeights(weightMatrix, false);
        return ReadRejected, 0;
      }
      EstimateWrite();
      TruncateFits(Predict(writeEventHist[..], writeWeightMatrix[..], ri));
      if writeNextEstimate < 0 {
        InitializeWeights(writeWeightMatrix, false);
        return WriteRejected, 0;
      }
      verdict, credit := CommitPass(t);
    }

    /** Sets the throttle flag, unless it is set already. */
    method Throttle()
      requires Valid()
      modifies `throttlerTask
      ensures State() == CoreStep(old(State()), Flag(true), 1)
    {
      var t := throttlerTask;
      if t {
        return;
      }
      throttlerTask := true;
    }

    method Unthrottle()
      requires Valid()
      modifies `throttlerTask
      ensures State() == CoreStep(old(State()), Flag(false), 1)
    {
      throttlerTask := false;
    }

    /** All four estimates start over; then the counters are enabled. */
    method StartRegulation()
      requires Valid()
      modifies `nextEstimate, `prevEstimate, `writeNextEstimate, `writePrevEstimate, `counting
      ensures State() == CoreStep(old(State()), Begin, 1)
    {
      hide Pass;
      ResetEstimates();
      counting := true;
    }

    method ResetEstimates()
      requires Valid()
      modifies `nextEstimate, `prevEstimate, `writeNextEstimate, `writePrevEstimate
      ensures ReadChannel() == Restarted(old(ReadChannel()))
      ensures WriteChannel() == Restarted(old(WriteChannel()))
    {
      nextEstimate, prevEstimate := 0, 0;
      writeNextEstimate, writePrevEstimate := 0, 0;
    }

    method StopRegulation()
      requires Valid()
      modifies `counting
      ensures State() == CoreStep(old(State()), End, 1)
    {
      counting := false;
    }
  }
}
