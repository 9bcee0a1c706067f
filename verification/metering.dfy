/** Usage metering over whole runs: no rounding drift, rejected passes included. */
module Metering {
  import opened Machine
  import opened Units
  import opened Controller

  function CountOf(e: CoreEvent, side: Side): nat
    requires e.Control?
  {
    if side.ReadSide? then e.readEvents else e.writeEvents
  }

  /** The counter's last reading in the run, starting from an earlier one. */
  function LastReading(run: seq<CoreEvent>, side: Side, first: nat): nat
  {
    if run == [] then first
    else
      var e := run[|run| - 1];
      if e.Control? then CountOf(e, side) else LastReading(run[..|run| - 1], side, first)
  }

  /** Readings never decrease, and the conversion delivers the low bits of their rates. */
  predicate Counts(run: seq<CoreEvent>, side: Side, first: nat, t: nat)
    requires RegulationTime(t)
  {
    run != [] ==>
      var k := |run| - 1;
      && Counts(run[..k], side, first, t)
      && (run[k].Control? ==>
            LastReading(run[..k], side, first) <= CountOf(run[k], side) && ReadingFits(CountOf(run[k], side), t))
  }

  /** The usages that the passes of the run have metered, added up. */
  function TotalUse(c: Core, run: seq<CoreEvent>, side: Side, t: nat): nat
    requires RegulationTime(t)
  {
    if run == [] then 0
    else
      var k := |run| - 1;
      TotalUse(c, run[..k], side, t)
      + if run[k].Control? then ChannelOf(CoreRun(c, run, t), side).used else 0
  }

  /** A pass meters the difference of two rounded readings, however it ends. */
  lemma PassMeters(c: Core, e: CoreEvent, side: Side, t: nat, last: nat)
    requires RegulationTime(t) && e.Control?
    requires ChannelOf(c, side).countNew == EventsToMb(last, t)
    ensures var ch := ChannelOf(CoreStep(c, e, t), side);
            ch.countNew == EventsToMb(CountOf(e, side), t) && ch.used == MeteredUse(last, CountOf(e, side), t)
  {
    hide EventsToMb, MbToEvents, Sub64;
  }

  lemma OtherEventsKeepMeters(c: Core, e: CoreEvent, side: Side, t: nat)
    requires RegulationTime(t) && !e.Control?
    ensures ChannelOf(CoreStep(c, e, t), side).countNew == ChannelOf(c, side).countNew
  {
  }

  /** The true use between two readings, over unbounded integers. */
  function TrueUse(before: nat, after: nat, t: nat): int
    requires RegulationTime(t)
  {
    MbExact(after, t) - MbExact(before, t)
  }

  /** The windows of 2^32 MB/s that the cumulative rate has entered between two readings. */
  function WindowsCrossed(before: nat, after: nat, t: nat): int
    requires RegulationTime(t)
  {
    IntWindow(MbExact(after, t)) - IntWindow(MbExact(before, t))
  }

  /** What a number of passes between two readings has metered: the true use, less 2^32 for every window crossed, plus
      2^64 for every pass whose unsigned difference wrapped; only a crossing pass can wrap. */
  ghost predicate Telescoped(total: int, before: nat, after: nat, t: nat, wraps: nat)
    requires RegulationTime(t)
  {
    && before <= after && ReadingFits(after, t)
    && total == TrueUse(before, after, t) - 0x1_0000_0000 * WindowsCrossed(before, after, t)
                + 0x1_0000_0000_0000_0000 * wraps
    && 0 <= WindowsCrossed(before, after, t) <= 0x8000_0000
    && (WindowsCrossed(before, after, t) == 0 ==> wraps == 0)
  }

  lemma NothingMetered(first: nat, t: nat)
    requires RegulationTime(t) && ReadingFits(first, t)
    ensures Telescoped(0, first, first, t, 0)
  {
    hide MbExact, IntWindow;
  }

  /** One more pass, from the middle reading to the last one. */
  lemma OneMoreUse(total: int, first: nat, before: nat, after: nat, t: nat, wraps: nat) returns (wraps': nat)
    requires RegulationTime(t) && Telescoped(total, first, before, t, wraps)
    requires before <= after && ReadingFits(after, t)
    ensures Telescoped(total + MeteredUse(before, after, t), first, after, t, wraps')
  {
    hide MbExact, IntWindow, MeteredUse, ReadingFits;
    MeteredUseIs(before, after, t);
    MeteredUseIs(first, after, t);
    var use := TrueUse(before, after, t) - 0x1_0000_0000 * WindowsCrossed(before, after, t);
    wraps' := if use >= 0 then wraps else wraps + 1;
  }

  /** Metering telescopes over every run, rejected passes included. */
  lemma {:induction false} UseTelescopes(c: Core, run: seq<CoreEvent>, side: Side, t: nat, first: nat)
    returns (wraps: nat)
    requires RegulationTime(t) && Counts(run, side, first, t) && ReadingFits(first, t)
    requires ChannelOf(c, side).countNew == EventsToMb(first, t)
    ensures ChannelOf(CoreRun(c, run, t), side).countNew == EventsToMb(LastReading(run, side, first), t)
    ensures Telescoped(TotalUse(c, run, side, t), first, LastReading(run, side, first), t, wraps)
  {
    hide CoreStep, EventsToMb, ReadingFits, MeteredUse, Telescoped;
    if run == [] {
      wraps := 0;
      NothingMetered(first, t);
    } else {
      var k := |run| - 1;
      wraps := UseTelescopes(c, run[..k], side, t, first);
      var before, last := CoreRun(c, run[..k], t), LastReading(run[..k], side, first);
      if run[k].Control? {
        PassMeters(before, run[k], side, t, last);
        wraps := OneMoreUse(TotalUse(c, run[..k], side, t), first, last, CountOf(run[k], side), t, wraps);
      } else {
        OtherEventsKeepMeters(before, run[k], side, t);
      }
    }
  }

  /** Main result: over every run, rejected passes included, what the passes have metered adds up to the true use
      exactly when the first and the last reading lie in the same window of the C int; and modulo 2^32 it always does.
      */
  lemma UseIsExactIff(c: Core, run: seq<CoreEvent>, side: Side, t: nat, first: nat)
    requires RegulationTime(t) && Counts(run, side, first, t) && ReadingFits(first, t)
    requires ChannelOf(c, side).countNew == EventsToMb(first, t)
    ensures var last := LastReading(run, side, first);
            && first <= last
            && ChannelOf(CoreRun(c, run, t), side).countNew == EventsToMb(last, t)
            && (TotalUse(c, run, side, t) == TrueUse(first, last, t) <==> SameWindow(first, last, t))
            && (TotalUse(c, run, side, t) - TrueUse(first, last, t)) % 0x1_0000_0000 == 0
  {
    hide EventsToMb, MbExact, IntWindow, Counts, ReadingFits;
    var wraps := UseTelescopes(c, run, side, t, first);
    WholeWindows(WindowsCrossed(first, LastReading(run, side, first), t), wraps);
  }

  lemma WholeWindows(windows: int, wraps: nat)
    ensures (0x1_0000_0000_0000_0000 * wraps - 0x1_0000_0000 * windows) % 0x1_0000_0000 == 0
  {
  }

  /** No rounding drift: inside one window the metered usages of a whole run add up to the true usage rounded once, down
      or up, and so does every single one of them for its own interval. */
  lemma NoRoundingDrift(c: Core, run: seq<CoreEvent>, side: Side, t: nat, first: nat)
    requires RegulationTime(t) && Counts(run, side, first, t) && ReadingFits(first, t)
    requires ChannelOf(c, side).countNew == EventsToMb(first, t)
    requires SameWindow(first, LastReading(run, side, first), t)
    ensures first <= LastReading(run, side, first)
    ensures RoundedUse(TotalUse(c, run, side, t), first, LastReading(run, side, first), t)
    ensures run != [] && run[|run| - 1].Control? ==>
              var last := LastReading(run[..|run| - 1], side, first);
              && last <= CountOf(run[|run| - 1], side)
              && RoundedUse(ChannelOf(CoreRun(c, run, t), side).used, last, CountOf(run[|run| - 1], side), t)
  {
    hide EventsToMb, MbExact, ReadingFits, RoundedUse, SameWindow, CoreRun, TotalUse, TrueUse, Counts;
    UseIsExactIff(c, run, side, t, first);
    TrueUseRounds(first, LastReading(run, side, first), t);
    if run != [] && run[|run| - 1].Control? { LastUseRounds(c, run, side, t, first); }
  }

  lemma TrueUseRounds(first: nat, last: nat, t: nat)
    requires RegulationTime(t) && first <= last
    ensures RoundedUse(TrueUse(first, last, t), first, last, t)
  {
    MbDifference(first, last, t);
  }

  lemma LastUseRounds(c: Core, run: seq<CoreEvent>, side: Side, t: nat, first: nat)
    requires RegulationTime(t) && Counts(run, side, first, t) && ReadingFits(first, t)
    requires ChannelOf(c, side).countNew == EventsToMb(first, t)
    requires SameWindow(first, LastReading(run, side, first), t) && run != [] && run[|run| - 1].Control?
    ensures var last := LastReading(run[..|run| - 1], side, first);
            && last <= CountOf(run[|run| - 1], side)
            && RoundedUse(ChannelOf(CoreRun(c, run, t), side).used, last, CountOf(run[|run| - 1], side), t)
  {
    hide CoreStep, EventsToMb, MbExact, IntWindow, MeteredUse, RoundedUse, ReadingFits;
    var k := |run| - 1;
    var last, now := LastReading(run[..k], side, first), CountOf(run[k], side);
    UseIsExactIff(c, run[..k], side, t, first);
    PassMeters(CoreRun(c, run[..k], t), run[k], side, t, last);
    MiddleOfWindow(first, last, now, t);
    MeteredUseRounds(last, now, t);
  }

  /** Readings between two of the same window lie in it too. */
  lemma MiddleOfWindow(first: nat, last: nat, now: nat, t: nat)
    requires RegulationTime(t) && first <= last <= now && ReadingFits(now, t) && SameWindow(first, now, t)
    ensures SameWindow(last, now, t)
  {
    hide MbExact, ReadingFits, IntWindow, MeteredUse;
    EarlierFits(last, now, t);
    MeteredUseIs(first, last, t);
    MeteredUseIs(last, now, t);
  }
}
