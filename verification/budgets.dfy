/** What the budgets enforce: conversion, metering and the split taken together. */
module Budgets {
  import opened Machine
  import opened Rounding
  import opened Lms
  import opened Units
  import opened Split
  import opened Controller

  // ---------------------------------------------------------------- one budget

  /** Events up to the budget of a rate are metered as at most that rate, whatever was counted before, exactly when both
      readings lie in the same window of the C int. */
  lemma BudgetCoversUseIff(before: nat, after: nat, rate: nat, t: nat)
    requires RegulationTime(t) && 1000 % t == 0 && rate < S32
    requires before <= after <= before + MbToEvents(rate, t) && ReadingFits(after, t)
    ensures MeteredUse(before, after, t) <= rate <==> SameWindow(before, after, t)
  {
    hide MbToEvents, MeteredUse, ReadingFits;
    BudgetRate(after - before, rate, t);
    UseBelowCeiling(before, after, t);
    MeteredUseIs(before, after, t);
    hide MbExact, IntWindow;
  }

  /** Over unbounded integers, events up to the budget of a rate stand for at most that rate. */
  lemma BudgetRate(n: nat, rate: nat, t: nat)
    requires RegulationTime(t) && 1000 % t == 0 && rate < S32 && n <= MbToEvents(rate, t)
    ensures MbExact(n, t) <= rate
  {
    hide MbToEvents;
    MbToEventsExact(rate, t);
    InverseTime(t);
    CeilIff(n * 64000, t * 0x10_0000, rate);
    FloorIff(rate * 0x10_0000, BytesPerRate(t), n);
    ScaleByTime(n, rate, t, 1000 / t);
  }

  lemma UseBelowCeiling(before: nat, after: nat, t: nat)
    requires RegulationTime(t) && before <= after
    ensures 0 <= MbExact(after, t) - MbExact(before, t) <= MbExact(after - before, t)
  {
    MbDifference(before, after, t);
    var bytes, d := (after - before) * 64000, t * 0x10_0000;
    QuotientMonotone(bytes, bytes + (d - 1), d);
  }

  /** Inside one window, some core stays within its budget and is still metered above its rate exactly for the
      regulation times that do not divide 1000. */
  lemma BudgetsEnforceRatesIff(t: nat)
    requires RegulationTime(t)
    ensures (forall before: nat, after: nat, rate: nat ::
               rate < S32 && before <= after <= before + MbToEvents(rate, t)
               && ReadingFits(after, t) && SameWindow(before, after, t)
               ==> MeteredUse(before, after, t) <= rate)
            <==> 1000 % t == 0
  {
    hide MbToEvents, MeteredUse, ReadingFits, SameWindow;
    if 1000 % t == 0 {
      forall before: nat, after: nat, rate: nat
        | rate < S32 && before <= after <= before + MbToEvents(rate, t)
          && ReadingFits(after, t) && SameWindow(before, after, t)
        ensures MeteredUse(before, after, t) <= rate
      {
        BudgetCoversUseIff(before, after, rate, t);
      }
    } else {
      BudgetExceeded(t);
    }
  }

  lemma BudgetExceeded(t: nat)
    requires RegulationTime(t) && 1000 % t != 0
    ensures var n := MbToEvents(31, t);
            ReadingFits(n, t) && SameWindow(0, n, t) && MeteredUse(0, n, t) > 31
  {
    hide MbToEvents, EventsToMb, MbExact;
    var n := MbToEvents(31, t);
    RoundTripTooLarge(t);
    EventsToMbExact(n, t);
    NothingCounted(t);
    MeteredUseIs(0, n, t);
  }

  /** Across a window no budget holds, whatever the regulation time: a core whose next event crosses is within every
      positive budget and is metered at almost 2^64. */
  lemma EveryBudgetFailsAtCrossing(t: nat, rate: nat) returns (before: nat)
    requires RegulationTime(t) && 1 <= rate < S32
    ensures 1 <= MbToEvents(rate, t) && ReadingFits(before + 1, t)
    ensures MeteredUse(before, before + 1, t) == 0xFFFF_FFFF_0000_0001
  {
    hide MbToEvents, MbExact, MeteredUse, ReadingFits;
    ReclaimGrantsFewEvents(rate, t);
    before := OneEventCrosses(t);
    MeteredUseIs(before, before + 1, t);
  }

  // ---------------------------------------------------------------- the first budget

  /** The first budget passes through the int of the sampling period: it is the initial bandwidth's budget exactly when
      that fits. */
  lemma FirstBudgetIff(initialBw: nat, t: nat)
    requires RegulationTime(t) && initialBw < S32
    ensures FirstBudget(initialBw, t) == MbToEvents(initialBw, t) <==> MbToEvents(initialBw, t) < S32
  {
    var n := MbToEvents(initialBw, t);
    hide MbToEvents;
    assert ToS32(initialBw) == initialBw;
    MbToEventsExact(initialBw, t);
    FloorIff(initialBw * 0x10_0000, BytesPerRate(t), 0x100_0000_0000_0000);
    MulMonotone(64, BytesPerRate(t), 0x100_0000_0000_0000);
    assert n < 0x100_0000_0000_0000;
    hide *;
    IntKeepsIff(n);
  }

  lemma IntKeepsIff(n: nat)
    requires n < 0x100_0000_0000_0000
    ensures Low64(ToS32(n)) == n <==> n < 0x8000_0000
  {
  }

  /** A fresh core that stays within its first budget is metered at most at its initial bandwidth by its first pass; and
      the whole budget is metered as exactly that. */
  lemma FirstBudgetEnforced(initialBw: nat, maxBw: nat, t: nat, events: nat)
    requires RegulationTime(t) && 1000 % t == 0 && initialBw < S32 && MbToEvents(initialBw, t) < S32
    ensures var c := FreshCore(initialBw, maxBw, t);
            && c.read.periodLeft == c.write.periodLeft
            && (events <= c.read.periodLeft ==> Metered(c.read, EventsToMb(events, t)).used <= initialBw)
            && (events == c.read.periodLeft ==> Metered(c.read, EventsToMb(events, t)).used == initialBw)
  {
    hide EventsToMb, MbToEvents, FirstBudget;
    FirstBudgetIff(initialBw, t);
    var budget := MbToEvents(initialBw, t);
    if events <= budget {
      RoundTripExact(initialBw, t);
      FewerEventsFit(events, budget, t);
      Adjunction(events, initialBw, t);
      LowIdentity(EventsToMb(events, t));
    }
  }

  lemma FewerEventsFit(events: nat, budget: nat, t: nat)
    requires RegulationTime(t) && events <= budget && EventsFit(budget, t)
    ensures EventsFit(events, t)
  {
    QuotientMonotone(events * 64000 + (t * 0x10_0000 - 1), budget * 64000 + (t * 0x10_0000 - 1), t * 0x10_0000);
  }

  // ---------------------------------------------------------------- one committed pass

  /** Where the counters of a core stood at a commit, and what it was given. */
  lemma CommitFunds(c: Core, readEvents: nat, writeEvents: nat, t: nat)
    requires RegulationTime(t)
    ensures var (c', v) := Pass(c, readEvents, writeEvents, t);
            v.Committed? ==>
              && c'.read.countNew == EventsToMb(readEvents, t) && c'.write.countNew == EventsToMb(writeEvents, t)
              && c'.read.periodLeft == MbToEvents(v.readAllocation, t)
              && c'.write.periodLeft == MbToEvents(v.writeAllocation, t)
              && v.readAllocation + v.writeAllocation <= c.maxBw
  {
    hide EventsToMb, MbToEvents, Update, Predict, Allocate;
    var r := Estimated(Metered(c.read, EventsToMb(readEvents, t)), c.ri, c.initialBw);
    var w := Estimated(Metered(c.write, EventsToMb(writeEvents, t)), c.ri, c.initialBw);
    if r.next >= 0 && w.next >= 0 { SplitIsSafe(c.maxBw, r.next, w.next); }
  }

  /** Main result: a core that after a commit causes at most the events of its two budgets is metered at most its two
      allocations by the next pass, and so at most its limit in total, exactly when no reading crosses a window. */
  lemma CommitLimitsNextUseIff(c: Core, readEvents: nat, writeEvents: nat, t: nat, readNext: nat, writeNext: nat)
    requires RegulationTime(t) && 1000 % t == 0 && c.maxBw < S32
    requires Pass(c, readEvents, writeEvents, t).1.Committed?
    requires var c' := Pass(c, readEvents, writeEvents, t).0;
             && readEvents <= readNext <= readEvents + c'.read.periodLeft && ReadingFits(readNext, t)
             && writeEvents <= writeNext <= writeEvents + c'.write.periodLeft && ReadingFits(writeNext, t)
    ensures var (c', v) := Pass(c, readEvents, writeEvents, t);
            var r := Metered(c'.read, EventsToMb(readNext, t)).used;
            var w := Metered(c'.write, EventsToMb(writeNext, t)).used;
            && (r <= v.readAllocation && w <= v.writeAllocation <==>
                  SameWindow(readEvents, readNext, t) && SameWindow(writeEvents, writeNext, t))
            && (r + w <= c.maxBw <==> SameWindow(readEvents, readNext, t) && SameWindow(writeEvents, writeNext, t))
  {
    hide Pass, EventsToMb, MbToEvents, ReadingFits, SameWindow;
    CommitFunds(c, readEvents, writeEvents, t);
    var v := Pass(c, readEvents, writeEvents, t).1;
    AllOrNothing(readEvents, readNext, v.readAllocation, c.maxBw, t);
    AllOrNothing(writeEvents, writeNext, v.writeAllocation, c.maxBw, t);
  }

  /** A use within its budget is metered either within its rate or above every limit. */
  lemma AllOrNothing(before: nat, after: nat, rate: nat, limit: nat, t: nat)
    requires RegulationTime(t) && 1000 % t == 0 && rate <= limit < S32
    requires before <= after <= before + MbToEvents(rate, t) && ReadingFits(after, t)
    ensures MeteredUse(before, after, t) <= rate <==> SameWindow(before, after, t)
    ensures MeteredUse(before, after, t) <= limit <==> SameWindow(before, after, t)
  {
    hide MbToEvents, MeteredUse, ReadingFits, SameWindow;
    BudgetCoversUseIff(before, after, rate, t);
    LargerRateLargerBudget(rate, limit, t);
    BudgetCoversUseIff(before, after, limit, t);
  }

  lemma LargerRateLargerBudget(rate: nat, limit: nat, t: nat)
    requires RegulationTime(t) && rate <= limit < S32
    ensures MbToEvents(rate, t) <= MbToEvents(limit, t)
  {
    hide MbToEvents;
    MbToEventsExact(rate, t);
    MbToEventsExact(limit, t);
    QuotientMonotone(rate * 0x10_0000, limit * 0x10_0000, BytesPerRate(t));
  }

  /** A reclaimed amount is written to the counter without conversion: whatever the regulation time, the core gets at
      most a sixteenth of the events that the amount taken from the pool stands for. */
  lemma ReclaimGrantsFewEvents(amount: nat, t: nat)
    requires RegulationTime(t) && amount < S32
    ensures 16 * amount <= MbToEvents(amount, t)
  {
    hide MbToEvents;
    MbToEventsExact(amount, t);
    FloorIff(amount * 0x10_0000, BytesPerRate(t), 16 * amount);
    MulMonotone(BytesPerRate(t), 64000, 16 * amount);
  }
}
