/** Light cores: while every sample stays below 256 the predictor never changes and no pass is ever rejected. */
module LightCore {
  import opened Machine
  import opened Rounding
  import opened Lms
  import opened LmsTheorems
  import opened Units
  import opened Split
  import opened Controller

  const LIGHT: nat := 256

  predicate LightChannel(ch: Channel, initialBw: nat)
  {
    && AllBelow(ch.hist, LIGHT)
    && ch.weights == InitialWeights()
    && 0 <= ch.prev <= initialBw + 127
  }

  predicate LightState(c: Core) { LightChannel(c.read, c.initialBw) && LightChannel(c.write, c.initialBw) }

  lemma {:induction false} InitialDot(x: seq<nat>, n: nat)
    requires n <= HIST_SIZE && n <= |x| && AllBelow(x, LIGHT)
    ensures 0.0 <= Dot(InitialWeights(), x, n) <= 25.51 * n as real
  {
    if n > 0 {
      InitialDot(x, n - 1);
      assert 0.0 <= Weighted(INITIAL_WEIGHT, x[n - 1]) <= 25.51;
    }
  }

  lemma LightEstimate(ch: Channel, ri: nat, initialBw: nat)
    requires ri < HIST_SIZE && LightChannel(ch, initialBw) && ch.used < LIGHT
    ensures var e := Estimated(ch, ri, initialBw);
            && initialBw <= e.next <= initialBw + 127 && LightChannel(e, initialBw)
            && FitsInt(Predict(e.hist, e.weights, ri))
  {
    var h := ch.hist[ri := ch.used];
    InitialDot(Recent(h, ri), HIST_SIZE);
  }

  /** Both ends of the range are attained: silence predicts nothing, samples of 255 predict 127. */
  lemma LightBoundsAreAttained(ri: nat, initialBw: nat, v: nat)
    requires ri < HIST_SIZE && (v == 0 || v == 255)
    ensures var h: seq<nat> := seq(HIST_SIZE, i => v);
            var ch := ChannelRecord(0, 0, v, h, InitialWeights(), 0, 0, 0);
            LightChannel(ch, initialBw) && Estimated(ch, ri, initialBw).next == initialBw + if v == 0 then 0 else 127
  {
    var h: seq<nat> := seq(HIST_SIZE, i => v);
    assert h[ri := v] == h && Recent(h, ri) == h;
    ConstantDot(h, v, HIST_SIZE);
  }

  lemma {:induction false} ConstantDot(x: seq<nat>, v: nat, n: nat)
    requires n <= HIST_SIZE && n <= |x| && forall i :: 0 <= i < |x| ==> x[i] == v
    ensures Dot(InitialWeights(), x, n) == Weighted(INITIAL_WEIGHT, v) * n as real
  {
    if n > 0 { ConstantDot(x, v, n - 1); }
  }

  lemma LightLearning(ch: Channel, initialBw: nat)
    requires LightChannel(ch, initialBw) && initialBw <= ch.next <= initialBw + 127
    ensures LightChannel(Learned(ch), initialBw)
  {
    NormZeroIff(ch.hist);
  }

  predicate LightSample(ch: Channel, count: nat) { Metered(ch, count).used < LIGHT }

  predicate LightEvent(c: Core, e: CoreEvent, t: nat)
    requires RegulationTime(t)
  {
    e.Control? ==>
      LightSample(c.read, EventsToMb(e.readEvents, t)) && LightSample(c.write, EventsToMb(e.writeEvents, t))
  }

  /** A light pass commits, keeps the core light, and stays inside the machine ranges. */
  lemma LightPass(c: Core, readEvents: nat, writeEvents: nat, t: nat)
    requires RegulationTime(t) && LightState(c) && LightEvent(c, Control(readEvents, writeEvents), t)
    ensures var (c', v) := Pass(c, readEvents, writeEvents, t);
            && LightState(c') && c'.initialBw == c.initialBw && c'.maxBw == c.maxBw
            && c.initialBw <= c'.read.next <= c.initialBw + 127
            && c.initialBw <= c'.write.next <= c.initialBw + 127
            && v.Committed? && (v.readAllocation, v.writeAllocation) == Allocate(c.maxBw, c'.read.next, c'.write.next)
    ensures c.initialBw < 0x4000_0000 && c.maxBw < S32 ==> PassFits(c, readEvents, writeEvents, t)
  {
    hide EventsToMb, MbToEvents, Predict, Update, Allocate, Sub64, InitialWeights;
    var r, w := Metered(c.read, EventsToMb(readEvents, t)), Metered(c.write, EventsToMb(writeEvents, t));
    LightEstimate(r, c.ri, c.initialBw);
    LightEstimate(w, c.ri, c.initialBw);
    var r', w' := Estimated(r, c.ri, c.initialBw), Estimated(w, c.ri, c.initialBw);
    var (a, b) := Allocate(c.maxBw, r'.next, w'.next);
    LightLearning(Funded(r', a, t), c.initialBw);
    LightLearning(Funded(w', b, t), c.initialBw);
  }

  /** With the default limits both allocations stay within 443 and 556, whatever the two light estimates are. */
  lemma DefaultAllocations(r: nat, w: nat)
    requires 500 <= r <= 627 && 500 <= w <= 627
    ensures var (a, b) := Allocate(1000, r, w);
            443 <= a <= 556 && 443 <= b <= 556 && 999 <= a + b <= 1000
    ensures Allocate(1000, 500, 627) == (443, 556)
  {
    SplitIsSafe(1000, r, w);
    if r + w > 1000 {
      var t := r + w;
      FloorIff(1000 * r, t, 443);
      FloorIff(1000 * w, t, 443);
      FloorIff(1000 * r, t, 557);
      FloorIff(1000 * w, t, 557);
    }
  }

  /** What a light core with the default limits gets from a pass. */
  ghost predicate DefaultPass(c: Core, e: CoreEvent, t: nat)
    requires RegulationTime(t)
  {
    e.Control? ==>
      var (c', v) := Pass(c, e.readEvents, e.writeEvents, t);
      && v.Committed? && !c'.throttled
      && 500 <= c'.read.next <= 627 && 500 <= c'.write.next <= 627
      && 443 <= v.readAllocation <= 556 && 443 <= v.writeAllocation <= 556
      && 0 <= Credit(c, v) <= 1
      && PassFits(c, e.readEvents, e.writeEvents, t)
  }

  /** Every sample metered in the run is below 256. */
  ghost predicate LightRun(c: Core, run: seq<CoreEvent>, t: nat)
    requires RegulationTime(t)
  {
    forall n | 0 <= n < |run| :: LightEvent(CoreRun(c, run[..n], t), run[n], t)
  }

  lemma LightStep(c: Core, e: CoreEvent, t: nat)
    requires RegulationTime(t) && LightState(c) && LightEvent(c, e, t)
    ensures LightState(CoreStep(c, e, t))
    ensures CoreStep(c, e, t).initialBw == c.initialBw && CoreStep(c, e, t).maxBw == c.maxBw
    ensures c.initialBw == 500 && c.maxBw == 1000 ==> DefaultPass(c, e, t)
  {
    if e.Control? {
      hide EventsToMb, LightEvent, LightState, PassFits, Allocate;
      LightPass(c, e.readEvents, e.writeEvents, t);
      var (c', v) := Pass(c, e.readEvents, e.writeEvents, t);
      if c.initialBw == 500 && c.maxBw == 1000 { DefaultAllocations(c'.read.next, c'.write.next); }
      CommitReleases(c, e, t);
    }
  }

  lemma LightPrefix(c: Core, run: seq<CoreEvent>, t: nat, n: nat)
    requires RegulationTime(t) && LightRun(c, run, t) && n <= |run|
    ensures LightRun(c, run[..n], t)
    ensures n < |run| ==> LightEvent(CoreRun(c, run[..n], t), run[n], t)
  {
    hide LightEvent, CoreRun;
    assert forall m :: 0 <= m < n ==> run[..n][..m] == run[..m];
  }

  lemma {:induction false} LightStays(c: Core, run: seq<CoreEvent>, t: nat)
    requires RegulationTime(t) && LightState(c) && LightRun(c, run, t)
    ensures LightState(CoreRun(c, run, t))
    ensures CoreRun(c, run, t).initialBw == c.initialBw && CoreRun(c, run, t).maxBw == c.maxBw
  {
    if run != [] {
      hide CoreStep, LightEvent, LightState, LightRun, DefaultPass;
      var k := |run| - 1;
      LightPrefix(c, run, t, k);
      LightStays(c, run[..k], t);
      LightStep(CoreRun(c, run[..k], t), run[k], t);
    }
  }

  /** Main result: a light core keeps its initial weights forever, and with the default limits every pass of every
      run commits with estimates in 500..627 and allocations in 443..556. */
  lemma LightForever(c: Core, run: seq<CoreEvent>, t: nat)
    requires RegulationTime(t) && LightState(c) && LightRun(c, run, t)
    ensures LightState(CoreRun(c, run, t))
    ensures CoreRun(c, run, t).initialBw == c.initialBw && CoreRun(c, run, t).maxBw == c.maxBw
    ensures c.initialBw == 500 && c.maxBw == 1000 ==>
              forall n | 0 <= n < |run| :: DefaultPass(CoreRun(c, run[..n], t), run[n], t)
  {
    hide CoreRun, CoreStep, LightEvent, LightState, LightRun, DefaultPass;
    LightStays(c, run, t);
    forall n: nat | n < |run|
      ensures c.initialBw == 500 && c.maxBw == 1000 ==> DefaultPass(CoreRun(c, run[..n], t), run[n], t)
    {
      LightPrefix(c, run, t, n);
      LightStays(c, run[..n], t);
      LightStep(CoreRun(c, run[..n], t), run[n], t);
    }
  }

  /** Fresh cores are light. */
  lemma FreshIsLight(initialBw: nat, maxBw: nat, t: nat)
    requires RegulationTime(t)
    ensures LightState(FreshCore(initialBw, maxBw, t))
  {
  }
}
