/** Unit conversions between counter events and MB/s, and what metering by their differences guarantees. */
module Units {
  import opened Machine
  import opened Rounding

  /** The regulation times the conversions are meant for, in milliseconds. */
  predicate RegulationTime(t: nat) { 1 <= t <= 1000 }

  /** MB/s of an event count, rounded up; the result passes through a C int. */
  function EventsToMb(events: nat, t: nat): nat
    requires RegulationTime(t)
  {
    var divisor := t * 0x10_0000;
    Low64(ToS32(Low64(events * 64 * 1000 + (divisor - 1)) / divisor))
  }

  /** The divisor of the second conversion; the inner division drops its remainder. */
  function BytesPerRate(t: nat): (d: nat)
    requires RegulationTime(t)
    ensures 64 <= d <= 64000
  {
    InverseTime(t);
    64 * (1000 / t)
  }

  lemma InverseTime(t: nat)
    requires RegulationTime(t)
    ensures 1 <= 1000 / t <= 1000
    ensures 1000 / t * t == 1000 - 1000 % t
  {
  }

  /** Events per regulation interval of an MB/s rate, rounded down; the rate arrives as a C int. */
  function MbToEvents(mb: int, t: nat): nat
    requires RegulationTime(t)
  {
    var bytes := Low64(Low64(mb) * 0x10_0000);
    FloorIff(bytes, BytesPerRate(t), 0);
    bytes / BytesPerRate(t)
  }

  /** The rounded-up rate over unbounded integers. */
  function MbExact(events: nat, t: nat): nat
    requires RegulationTime(t)
  {
    (events * 64000 + (t * 0x10_0000 - 1)) / (t * 0x10_0000)
  }

  /** The cumulative rate still fits the C int it is stored in. */
  predicate EventsFit(events: nat, t: nat)
    requires RegulationTime(t)
  {
    MbExact(events, t) < S32
  }

  /** The conversion delivers the low bits of the rate: the byte product stays inside 64 bits, or the regulation time
      divides 4096, as the default of 1 does, so that what wraps away is a multiple of 2^32 MB/s. */
  predicate ReadingFits(events: nat, t: nat)
    requires RegulationTime(t)
  {
    events * 64000 + t * 0x10_0000 <= U64 || (0x1000 % t == 0 && events < U64)
  }

  /** The rate as the conversion delivers it: cut down to a C int, then sign-extended to a u64. */
  lemma LowReading(events: nat, t: nat)
    requires RegulationTime(t) && ReadingFits(events, t)
    ensures EventsToMb(events, t) == Low64(ToS32(MbExact(events, t)))
    ensures MbExact(events, t) < S64
  {
    var d := t * 0x10_0000;
    var n := events * 64000 + (d - 1);
    RateBelow(n, d);
    if n < U64 {
      LowIdentity(n);
    } else {
      LowOfQuotient(n, t);
    }
    hide Low64, ToS32;
  }

  lemma RateBelow(n: nat, d: nat)
    requires d >= 0x10_0000 && n < S64 * 0x10_0000
    ensures n / d < S64
  {
    FloorIff(n, d, S64);
    MulMonotone(0x10_0000, d, S64);
  }

  /** The byte product may wrap when the regulation time divides 4096: the int forgets the difference. */
  lemma LowOfQuotient(n: nat, t: nat)
    requires RegulationTime(t) && 0x1000 % t == 0
    ensures ToS32(Low64(n) / (t * 0x10_0000)) == ToS32(n / (t * 0x10_0000))
  {
    var k := n / 0x1_0000_0000_0000_0000 * (0x1000 / t);
    LowOfPower(n, t);
    hide *;
    QuotientShifts(n, t * 0x10_0000, 0x1_0000_0000 * k);
    IntForgets(n / (t * 0x10_0000), k);
  }

  /** What a u64 drops is a multiple of the divisor when the regulation time divides 4096. */
  lemma LowOfPower(n: nat, t: nat)
    requires RegulationTime(t) && 0x1000 % t == 0
    ensures var k := n / 0x1_0000_0000_0000_0000 * (0x1000 / t);
            0 <= 0x1_0000_0000 * k * (t * 0x10_0000) == n - Low64(n)
  {
    var w, g := n / 0x1_0000_0000_0000_0000, 0x1000 / t;
    assert g * t == 0x1000;
    WholeWraps(w, g, t);
  }

  lemma WholeWraps(w: nat, g: nat, t: nat)
    requires g * t == 0x1000
    ensures 0x1_0000_0000 * (w * g) * (t * 0x10_0000) == 0x1_0000_0000_0000_0000 * w
  {
    assert w * g * t == w * (g * t);
  }

  lemma IntForgets(x: int, k: int)
    ensures ToS32(x - 0x1_0000_0000 * k) == ToS32(x)
  {
  }

  lemma EventsToMbExact(events: nat, t: nat)
    requires RegulationTime(t) && EventsFit(events, t)
    ensures ReadingFits(events, t) && EventsToMb(events, t) == MbExact(events, t)
  {
    FittingIsReading(events, t);
    LowReading(events, t);
    LowOfInt(MbExact(events, t));
  }

  lemma FittingIsReading(events: nat, t: nat)
    requires RegulationTime(t) && EventsFit(events, t)
    ensures ReadingFits(events, t)
  {
    FloorIff(events * 64000 + (t * 0x10_0000 - 1), t * 0x10_0000, S32);
  }

  lemma LowOfInt(m: nat)
    requires m < S32
    ensures Low64(ToS32(m)) == m
  {
  }

  lemma NothingCounted(t: nat)
    requires RegulationTime(t)
    ensures MbExact(0, t) == 0 && EventsToMb(0, t) == 0
  {
    FloorIff(t * 0x10_0000 - 1, t * 0x10_0000, 1);
    QuotientMonotone(0, t * 0x10_0000 - 1, t * 0x10_0000);
    EventsToMbExact(0, t);
    hide EventsToMb;
  }

  lemma MbToEventsExact(m: nat, t: nat)
    requires RegulationTime(t) && m < S32
    ensures MbToEvents(m, t) == m * 0x10_0000 / BytesPerRate(t)
  {
    hide BytesPerRate, Low64;
    LowIdentity(m);
    LowIdentity(m * 0x10_0000);
  }

  /** What the two conversions mean in bytes: a rate of m is enough for a count of events exactly when m MB in every
      second are at least the cache lines of 64 bytes counted in t of 1000 milliseconds; and events fit the budget of a
      rate exactly when their bytes, over the whole intervals in a second, are at most that rate. */
  lemma ConversionsInBytes(e: nat, m: nat, t: nat)
    requires RegulationTime(t) && m < S32
    ensures EventsFit(e, t) ==> (EventsToMb(e, t) <= m <==> e * 64 * 1000 <= m * 1024 * 1024 * t)
    ensures e <= MbToEvents(m, t) <==> e * 64 * (1000 / t) <= m * 1024 * 1024
  {
    if EventsFit(e, t) { RateInBytes(e, m, t); }
    BudgetInBytes(e, m, t);
  }

  lemma RateInBytes(e: nat, m: nat, t: nat)
    requires RegulationTime(t) && EventsFit(e, t)
    ensures EventsToMb(e, t) <= m <==> e * 64 * 1000 <= m * 1024 * 1024 * t
  {
    EventsToMbExact(e, t);
    CeilIff(e * 64000, t * 0x10_0000, m);
    hide *;
    Regroup(m, 0x10_0000, t);
  }

  lemma BudgetInBytes(e: nat, m: nat, t: nat)
    requires RegulationTime(t) && m < S32
    ensures e <= MbToEvents(m, t) <==> e * 64 * (1000 / t) <= m * 1024 * 1024
  {
    MbToEventsExact(m, t);
    InverseTime(t);
    FloorIff(m * 0x10_0000, BytesPerRate(t), e);
    hide MbToEvents, Low64;
    Regroup(e, 64, 1000 / t);
  }

  lemma Regroup(a: nat, b: nat, c: nat)
    ensures a * (c * b) == a * b * c == a * (b * c)
  {
  }

  // ---------------------------------------------------------------- the two conversions together

  /** Main result: for every regulation time that divides 1000 the conversions form a Galois connection. */
  lemma Adjunction(e: nat, m: nat, t: nat)
    requires RegulationTime(t) && 1000 % t == 0
    requires EventsFit(e, t) && m < S32
    ensures EventsToMb(e, t) <= m <==> e <= MbToEvents(m, t)
  {
    EventsToMbExact(e, t);
    MbToEventsExact(m, t);
    InverseTime(t);
    CeilIff(e * 64000, t * 0x10_0000, m);
    FloorIff(m * 0x10_0000, BytesPerRate(t), e);
    ScaleByTime(e, m, t, 1000 / t);
  }

  lemma ScaleByTime(e: nat, m: nat, t: nat, q: nat)
    requires t > 0 && q * t == 1000
    ensures e * 64000 <= m * (t * 0x10_0000) <==> e * (64 * q) <= m * 0x10_0000
  {
    var a, b := e * (64 * q), m * 0x10_0000;
    assert e * 64000 == a * t by {
      assert a * t == e * 64 * (q * t);
    }
    assert m * (t * 0x10_0000) == b * t;
    if a <= b { MulMonotone(a, b, t); } else { MulMonotone(b + 1, a, t); assert (b + 1) * t == b * t + t; }
  }

  /** Rounding down to whole events loses less than one event's worth of bytes. */
  lemma BudgetRemainder(m: nat, t: nat)
    requires RegulationTime(t) && m < S32
    ensures 0 <= m * 0x10_0000 - MbToEvents(m, t) * BytesPerRate(t) < BytesPerRate(t)
  {
    hide MbToEvents, BytesPerRate;
    MbToEventsExact(m, t);
    Remainder(m * 0x10_0000, BytesPerRate(t));
  }

  /** For every regulation time the budget may be too generous, but it is never too small. */
  lemma RoundTripNeverBelow(m: nat, t: nat)
    requires RegulationTime(t) && m < S32
    ensures m <= MbExact(MbToEvents(m, t), t) <= 2 * m
    ensures m <= EventsToMb(MbToEvents(m, t), t)
  {
    hide EventsToMb, MbToEvents;
    var e, d := MbToEvents(m, t), BytesPerRate(t);
    BudgetRemainder(m, t);
    InverseTime(t);
    assert d * t == 64 * (1000 / t * t);
    if m > 0 {
      MoreThanTheRateBelow(e, d, t, m);
      CeilIff(e * 64000, t * 0x10_0000, m - 1);
    }
    AtMostTwice(e, d, t, m);
    CeilIff(e * 64000, t * 0x10_0000, 2 * m);
    LowReading(e, t);
    hide *;
    LowNeverBelow(MbExact(e, t));
  }

  /** A rate that has left the int reads as a huge u64. */
  lemma LowNeverBelow(mb: nat)
    requires mb < U32
    ensures mb <= Low64(ToS32(mb))
  {
  }

  /** The dropped remainder of 1000 / t at most doubles a budget. */
  lemma AtMostTwice(e: nat, d: nat, t: nat, m: nat)
    requires RegulationTime(t) && d == BytesPerRate(t) && e * d <= m * 0x10_0000 && m < S32
    ensures e * 64000 <= 2 * m * (t * 0x10_0000)
    ensures ReadingFits(e, t)
  {
    InverseTime(t);
    DoubledTime(e, 1000 / t, t, m);
    MulMonotone(64, d, e);
    hide *;
    assert e <= 0x10_0000 * 0x200_0000;
    SmallCount(e, t);
  }

  lemma DoubledTime(e: nat, q: nat, t: nat, m: nat)
    requires 2 * (q * t) >= 1000 && e * (64 * q) <= m * 0x10_0000
    ensures e * 64000 <= 2 * m * (t * 0x10_0000)
  {
    MulMonotone(1000, 2 * (q * t), e * 64);
    MulMonotone(e * (64 * q), m * 0x10_0000, 2 * t);
    hide *;
    ReorderFactors(e, q, t, m);
  }

  lemma SmallCount(e: nat, t: nat)
    requires RegulationTime(t) && e <= 0x10_0000 * 0x200_0000
    ensures ReadingFits(e, t)
  {
  }

  lemma ReorderFactors(e: nat, q: nat, t: nat, m: nat)
    ensures 2 * (q * t) * (e * 64) == e * (64 * q) * (2 * t)
    ensures m * 0x10_0000 * (2 * t) == 2 * m * (t * 0x10_0000)
  {
    var p := e * q;
    assert q * t * e == p * t;
  }

  lemma MoreThanTheRateBelow(e: nat, d: nat, t: nat, m: nat)
    requires m > 0 && t > 0 && d * t <= 64000 && (m - 1) * 0x10_0000 < e * d
    ensures (m - 1) * (t * 0x10_0000) < e * 64000
  {
    MulMonotone(d * t, 64000, e);
    assert e * (d * t) == e * d * t;
    MulMonotone((m - 1) * 0x10_0000 + 1, e * d, t);
    assert ((m - 1) * 0x10_0000 + 1) * t == (m - 1) * (t * 0x10_0000) + t;
  }

  lemma RoundTripExact(m: nat, t: nat)
    requires RegulationTime(t) && 1000 % t == 0 && m < S32
    ensures EventsFit(MbToEvents(m, t), t)
    ensures EventsToMb(MbToEvents(m, t), t) == m
  {
    var e := MbToEvents(m, t);
    InverseTime(t);
    BudgetRemainder(m, t);
    ScaleByTime(e, m, t, 1000 / t);
    CeilIff(e * 64000, t * 0x10_0000, m);
    RoundTripNeverBelow(m, t);
    Adjunction(e, m, t);
  }

  /** For any other regulation time a rate of 31 MB/s already comes back too large. */
  lemma RoundTripTooLarge(t: nat)
    requires RegulationTime(t) && 1000 % t != 0
    ensures EventsFit(MbToEvents(31, t), t)
    ensures EventsToMb(MbToEvents(31, t), t) > 31
  {
    var e, q, d := MbToEvents(31, t), 1000 / t, BytesPerRate(t);
    InverseTime(t);
    BudgetRemainder(31, t);
    QuotientSmall(t);
    var n, k := e * 64000, t * 0x10_0000;
    assert n * q == e * d * 1000;
    assert (31 * k) * q == 31 * 0x10_0000 * (q * t);
    if n <= 31 * k { MulMonotone(n, 31 * k, q); }
    assert n > 31 * k;
    CeilIff(n, k, 31);
    MulMonotone(1, d, e);
    FitsWhenSmall(e, t);
    EventsToMbExact(e, t);
  }

  lemma QuotientSmall(t: nat)
    requires RegulationTime(t) && 1000 % t != 0
    ensures 1000 / t <= 333
  {
    if t == 1 {
    } else if t == 2 {
    } else {
      FloorIff(1000, t, 334);
    }
  }

  lemma FitsWhenSmall(e: nat, t: nat)
    requires RegulationTime(t) && e <= 31 * 0x10_0000
    ensures EventsFit(e, t)
  {
    MulMonotone(1, t, 2_000_000 * 0x10_0000);
    CeilIff(e * 64000, t * 0x10_0000, 2_000_000);
  }

  /** The budget a rate buys is metered back as that same rate, for every rate, exactly when the regulation
      time divides 1000. */
  lemma RoundTripExactIff(t: nat)
    requires RegulationTime(t)
    ensures (forall m: nat :: m < S32 ==> EventsToMb(MbToEvents(m, t), t) == m) <==> 1000 % t == 0
  {
    if 1000 % t == 0 {
      forall m: nat | m < S32
        ensures EventsToMb(MbToEvents(m, t), t) == m
      {
        RoundTripExact(m, t);
      }
    } else {
      RoundTripTooLarge(t);
    }
  }

  // ---------------------------------------------------------------- metering

  /** The usage the controller derives from two readings of one cumulative counter. */
  function MeteredUse(before: nat, after: nat, t: nat): nat
    requires RegulationTime(t)
  {
    Sub64(EventsToMb(after, t), EventsToMb(before, t))
  }

  /** use is the MB/s of the events between two readings, rounded either down or up. */
  predicate RoundedUse(use: int, before: nat, after: nat, t: nat)
    requires RegulationTime(t) && before <= after
  {
    var bytes := (after - before) * 64000;
    use == bytes / (t * 0x10_0000) || use == (bytes + (t * 0x10_0000 - 1)) / (t * 0x10_0000)
  }

  lemma MbDifference(before: nat, after: nat, t: nat)
    requires RegulationTime(t) && before <= after
    ensures MbExact(before, t) <= MbExact(after, t)
    ensures RoundedUse(MbExact(after, t) - MbExact(before, t), before, after, t)
  {
    var d := t * 0x10_0000;
    var a, b := before * 64000 + (d - 1), (after - before) * 64000;
    assert after * 64000 + (d - 1) == a + b;
    DifferenceOfFloors(a, b, d);
  }

  /** The window of the C int that a cumulative rate falls into. */
  function IntWindow(mb: nat): nat { (mb + 0x8000_0000) / 0x1_0000_0000 }

  /** Both readings' cumulative rates lie in the same window of 2^32 MB/s around zero. */
  predicate SameWindow(before: nat, after: nat, t: nat)
    requires RegulationTime(t)
  {
    IntWindow(MbExact(before, t)) == IntWindow(MbExact(after, t))
  }

  /** What a metered usage is, for any two readings: the true difference less 2^32 for every window crossed, and as a
      u64, so a negative result comes out 2^64 higher. */
  lemma MeteredUseIs(before: nat, after: nat, t: nat)
    requires RegulationTime(t) && before <= after && ReadingFits(after, t)
    ensures var k := IntWindow(MbExact(after, t)) - IntWindow(MbExact(before, t));
            var use := MbExact(after, t) - MbExact(before, t) - 0x1_0000_0000 * k;
            && 0 <= k <= 0x8000_0000 && MbExact(before, t) <= MbExact(after, t)
            && MeteredUse(before, after, t) == if use >= 0 then use else use + 0x1_0000_0000_0000_0000
  {
    EarlierFits(before, after, t);
    LowReading(before, t);
    LowReading(after, t);
    MbDifference(before, after, t);
    hide EventsToMb, MbExact, ReadingFits, RoundedUse, Low64;
    WindowedDifference(MbExact(before, t), MbExact(after, t));
  }

  lemma EarlierFits(before: nat, after: nat, t: nat)
    requires RegulationTime(t) && before <= after && ReadingFits(after, t)
    ensures ReadingFits(before, t)
  {
  }

  lemma WindowedDifference(m: nat, m': nat)
    requires m <= m' < S64
    ensures var k := IntWindow(m') - IntWindow(m);
            var use := m' - m - 0x1_0000_0000 * k;
            && 0 <= k <= 0x8000_0000
            && Sub64(Low64(ToS32(m')), Low64(ToS32(m))) == if use >= 0 then use else use + 0x1_0000_0000_0000_0000
  {
    WindowRemainder(m);
    WindowRemainder(m');
    WindowsInOrder(m, m');
    hide ToS32, IntWindow, Low64;
    LowOfDifference(ToS32(m'), ToS32(m));
    LowOfSmall(ToS32(m') - ToS32(m));
  }

  /** Cutting down to a C int leaves the place inside the window. */
  lemma WindowRemainder(m: nat)
    ensures ToS32(m) == m - 0x1_0000_0000 * IntWindow(m)
    ensures -0x8000_0000 <= ToS32(m) < 0x8000_0000
  {
  }

  lemma WindowsInOrder(m: nat, m': nat)
    requires m <= m' < S64
    ensures 0 <= IntWindow(m) <= IntWindow(m') <= 0x8000_0000
  {
  }

  lemma LowOfSmall(x: int)
    requires -0x1_0000_0000 < x < 0x1_0000_0000
    ensures Low64(x) == if x >= 0 then x else x + 0x1_0000_0000_0000_0000
  {
  }

  lemma LowOfDifference(x: int, y: int)
    ensures Sub64(Low64(x), Low64(y)) == Low64(x - y)
  {
  }

  /** The int in the conversion wraps: the metered usage is the true difference exactly when both cumulative
      rates lie in the same window. */
  lemma MeteredUseExactIff(before: nat, after: nat, t: nat)
    requires RegulationTime(t) && before <= after && ReadingFits(after, t)
    ensures MeteredUse(before, after, t) == MbExact(after, t) - MbExact(before, t) <==> SameWindow(before, after, t)
  {
    hide MeteredUse, MbExact, ReadingFits, IntWindow;
    MeteredUseIs(before, after, t);
  }

  /** Inside one window a metered usage is the true usage of the interval, rounded either down or up. */
  lemma MeteredUseRounds(before: nat, after: nat, t: nat)
    requires RegulationTime(t) && before <= after && ReadingFits(after, t) && SameWindow(before, after, t)
    ensures MeteredUse(before, after, t) == MbExact(after, t) - MbExact(before, t)
    ensures RoundedUse(MeteredUse(before, after, t), before, after, t)
  {
    hide MeteredUse, MbExact, ReadingFits, SameWindow, RoundedUse;
    MbDifference(before, after, t);
    MeteredUseExactIff(before, after, t);
  }

  // ---------------------------------------------------------------- metering at any count

  /** The bytes of a count with the rounding of the first conversion, and their part that fits 64 bits. */
  function RoundedBytes(events: nat, t: nat): nat
    requires RegulationTime(t)
  {
    events * 64000 + (t * 0x10_0000 - 1)
  }

  /** The rate that is cut down to the int. */
  function ReducedRate(events: nat, t: nat): nat
    requires RegulationTime(t)
  {
    FloorIff(Low64(RoundedBytes(events, t)), t * 0x10_0000, 0);
    Low64(RoundedBytes(events, t)) / (t * 0x10_0000)
  }

  /** How often the byte product has wrapped. */
  function ByteWindow(events: nat, t: nat): nat
    requires RegulationTime(t)
  {
    RoundedBytes(events, t) / 0x1_0000_0000_0000_0000
  }

  /** Every metered usage is the unsigned difference of two C ints, whatever the counts. */
  lemma MeteredUseIsIntDifference(before: nat, after: nat, t: nat)
    requires RegulationTime(t)
    ensures IntDifference(MeteredUse(before, after, t))
  {
    var x, x' := ToS32(ReducedRate(before, t)), ToS32(ReducedRate(after, t));
    WindowRemainder(ReducedRate(before, t));
    WindowRemainder(ReducedRate(after, t));
    LowOfDifference(x', x);
    LowOfSmall(x' - x);
    assert MeteredUse(before, after, t) == Low64(x' - x);
    hide *;
    DifferenceOfInts(x' - x);
  }

  lemma DifferenceOfInts(x: int)
    requires -0x1_0000_0000 < x < 0x1_0000_0000
    ensures IntDifference(Low64(x))
  {
  }

  /** For every regulation time and any two counts between which the byte product has not wrapped, also after it has
      wrapped before: the usage is the true usage rounded down or up exactly when the reduced rates lie in the same
      window of the int. */
  lemma MeteredUseInByteWindow(before: nat, after: nat, t: nat)
    requires RegulationTime(t) && before <= after && ByteWindow(before, t) == ByteWindow(after, t)
    ensures var m, m' := ReducedRate(before, t), ReducedRate(after, t);
            && m <= m' && RoundedUse(m' - m, before, after, t)
            && (MeteredUse(before, after, t) == m' - m <==> IntWindow(m) == IntWindow(m'))
  {
    ReducedRatesGrow(before, after, t);
    MeteredUseOfRates(before, after, t);
    hide *;
    WindowedDifference(ReducedRate(before, t), ReducedRate(after, t));
  }

  lemma MeteredUseOfRates(before: nat, after: nat, t: nat)
    requires RegulationTime(t)
    ensures MeteredUse(before, after, t)
            == Sub64(Low64(ToS32(ReducedRate(after, t))), Low64(ToS32(ReducedRate(before, t))))
  {
    hide Low64, ToS32, Sub64;
  }

  lemma ReducedRatesGrow(before: nat, after: nat, t: nat)
    requires RegulationTime(t) && before <= after && ByteWindow(before, t) == ByteWindow(after, t)
    ensures var m, m' := ReducedRate(before, t), ReducedRate(after, t);
            m <= m' < S64 && RoundedUse(m' - m, before, after, t)
  {
    var d := t * 0x10_0000;
    LowBytesGrow(before, after, t);
    RateBelow(Low64(RoundedBytes(after, t)), d);
    hide Low64, RoundedBytes;
    DifferenceOfFloors(Low64(RoundedBytes(before, t)), (after - before) * 64000, d);
  }

  lemma LowBytesGrow(before: nat, after: nat, t: nat)
    requires RegulationTime(t) && before <= after && ByteWindow(before, t) == ByteWindow(after, t)
    ensures Low64(RoundedBytes(after, t)) == Low64(RoundedBytes(before, t)) + (after - before) * 64000
  {
  }

  /** A reading that crosses 2^31 MB/s turns five MB/s into almost 2^64. */
  lemma MeteringWraps()
    ensures MbExact(35184372088, 1) - MbExact(35184372000, 1) == 5
    ensures MeteredUse(35184372000, 35184372088, 1) == 0xFFFF_FFFF_0000_0005
  {
    CrossingReadings();
    hide MeteredUse, MbExact;
    MeteredUseIs(35184372000, 35184372088, 1);
  }

  lemma CrossingReadings()
    ensures MbExact(35184372088, 1) == 0x8000_0000 && MbExact(35184372000, 1) == 0x7FFF_FFFB
  {
  }

  /** Such a crossing exists for every regulation time, and one event is enough for it. */
  lemma OneEventCrosses(t: nat) returns (before: nat)
    requires RegulationTime(t)
    ensures ReadingFits(before + 1, t)
    ensures MbExact(before, t) == 0x7FFF_FFFF && MbExact(before + 1, t) == 0x8000_0000
  {
    var d := t * 0x10_0000;
    before := 0x7FFF_FFFF * d / 64000;
    FloorIff(0x7FFF_FFFF * d, 64000, before);
    FloorIff(0x7FFF_FFFF * d, 64000, before + 1);
    CeilIff(before * 64000, d, 0x7FFF_FFFF);
    CeilIff(before * 64000, d, 0x7FFF_FFFE);
    CeilIff((before + 1) * 64000, d, 0x7FFF_FFFF);
    CeilIff((before + 1) * 64000, d, 0x8000_0000);
  }
}
