/** The bandwidth ledger: what enters and leaves the pool over every interleaved run. */
module Ledger {
  import opened Machine
  import opened Units
  import opened Budgets
  import opened Lms
  import opened Split
  import opened Controller
  import opened Regulation

  /** What one run has moved, in pool units. */
  datatype Totals = Totals(reclaimed: nat, handedOut: nat, limits: nat, commits: nat, draws: nat)

  function Add(a: Totals, b: Totals): Totals
  {
    Totals(a.reclaimed + b.reclaimed, a.handedOut + b.handedOut, a.limits + b.limits,
           a.commits + b.commits, a.draws + b.draws)
  }

  const NOTHING: Totals := Totals(0, 0, 0, 0, 0)

  /** The cpu whose pass the master takes with this step, if it takes one. */
  predicate TakesPass(s: Sys, e: Event)
  {
    e.MasterStep? && s.pc.Sweep? && Regulated(s.pc.cpu) && s.pc.cpu in s.online
  }

  function VerdictOf(s: Sys, e: Event): Verdict
    requires TakesPass(s, e)
  {
    Pass(s.plant.cores[s.pc.cpu], e.readEvents, e.writeEvents, s.t).1
  }

  /** A reclaim that takes something out of the pool: its core's last usage is at least two. */
  predicate TakesFromPool(s: Sys, e: Event)
  {
    e.Overflow? && Regulated(e.cpu) && 2 <= s.plant.cores[e.cpu].read.used < s.plant.pool
  }

  function Moved(s: Sys, e: Event): Totals
  {
    if TakesPass(s, e) then
      var v := VerdictOf(s, e);
      if v.Committed? then
        Totals(0, v.readAllocation + v.writeAllocation, s.plant.cores[s.pc.cpu].maxBw, 1, 0)
      else NOTHING
    else if e.Overflow? && Regulated(e.cpu) then
      Totals(Draw(s.plant.cores[e.cpu], s.plant.pool), 0, 0, 0, if TakesFromPool(s, e) then 1 else 0)
    else NOTHING
  }

  function MovedBy(s: Sys, tr: seq<Event>): Totals
  {
    if tr == [] then NOTHING
    else Add(MovedBy(s, tr[..|tr| - 1]), Moved(Run(s, tr[..|tr| - 1]), tr[|tr| - 1]))
  }

  lemma StepBalances(s: Sys, e: Event)
    ensures var m := Moved(s, e);
            Apply(s, e).plant.pool + m.reclaimed + m.handedOut == s.plant.pool + m.limits
  {
    hide Pass, CoreStep;
  }

  /** Main result: in every run, what is in the pool, what was reclaimed from it and what was allocated add up to the
      initial pool and the limits of all committed passes. */
  lemma {:induction false} LedgerBalances(s: Sys, tr: seq<Event>)
    ensures var m := MovedBy(s, tr);
            && Run(s, tr).plant.pool + m.reclaimed + m.handedOut == s.plant.pool + m.limits
            && m.reclaimed + m.handedOut <= s.plant.pool + m.limits
  {
    if tr != [] {
      hide Apply, Moved;
      LedgerBalances(s, tr[..|tr| - 1]);
      StepBalances(Run(s, tr[..|tr| - 1]), tr[|tr| - 1]);
    }
  }

  /** A reclaim leaves more than half of the pool. */
  lemma ReclaimLeavesHalf(s: Sys, cpu: nat)
    requires Regulated(cpu) && s.plant.cores[cpu].read.used < s.plant.pool
    ensures 2 * Apply(s, Overflow(cpu)).plant.pool > s.plant.pool
    ensures !s.plant.cores[cpu].throttled ==> !Apply(s, Overflow(cpu)).plant.cores[cpu].throttled
  {
  }

  /** What a reclaim moves: the core's read counter receives exactly what leaves the pool, which is half the last usage,
      rounded down; and as events that is at most a sixteenth of the budget of that rate. */
  lemma ReclaimIsTransferred(s: Sys, cpu: nat)
    requires Regulated(cpu) && s.plant.cores[cpu].read.used < s.plant.pool
    ensures var used, s' := s.plant.cores[cpu].read.used, Apply(s, Overflow(cpu));
            var granted := s'.plant.cores[cpu].read.periodLeft;
            && granted == s.plant.pool - s'.plant.pool
            && 2 * granted <= used <= 2 * granted + 1
            && (used < S32 ==> 16 * granted <= MbToEvents(granted, s.t))
  {
    var granted := Apply(s, Overflow(cpu)).plant.cores[cpu].read.periodLeft;
    if s.plant.cores[cpu].read.used < S32 { ReclaimGrantsFewEvents(granted, s.t); }
  }

  /** An overflow touches nothing else: not the other cores, not the master state or the switch, and of its own core
      only the read budget or the throttle flag, never both. */
  lemma OverflowLeavesRest(s: Sys, cpu: nat, other: nat)
    requires Regulated(cpu) && Regulated(other)
    ensures var s' := Apply(s, Overflow(cpu));
            var c, c' := s.plant.cores[cpu], s'.plant.cores[cpu];
            && s'.pc == s.pc && s'.writer == s.writer
            && s'.plant.master == s.plant.master && s'.plant.enabled == s.plant.enabled
            && (other != cpu ==> s'.plant.cores[other] == s.plant.cores[other])
            && c' == c.(throttled := c'.throttled, read := c.read.(periodLeft := c'.read.periodLeft))
            && (c.read.used < s.plant.pool ==> c'.throttled == c.throttled)
            && (c.read.used >= s.plant.pool ==> c'.throttled && c'.read == c.read && s'.plant.pool == s.plant.pool)
  {
    hide Pass;
  }

  // ---------------------------------------------------------------- reclaiming is finite

  lemma DrawsArePaid(s: Sys, e: Event)
    ensures Moved(s, e).draws <= Moved(s, e).reclaimed
    ensures Moved(s, e).commits == 0 ==> Moved(s, e).handedOut == Moved(s, e).limits == 0
  {
    hide Pass;
  }

  lemma {:induction false} AllDrawsArePaid(s: Sys, tr: seq<Event>)
    ensures MovedBy(s, tr).draws <= MovedBy(s, tr).reclaimed
    ensures MovedBy(s, tr).commits == 0 ==> MovedBy(s, tr).handedOut == MovedBy(s, tr).limits == 0
  {
    if tr != [] {
      hide Moved;
      AllDrawsArePaid(s, tr[..|tr| - 1]);
      DrawsArePaid(Run(s, tr[..|tr| - 1]), tr[|tr| - 1]);
    }
  }

  /** Between two credits, whatever the cores, handlers and rejected passes do, the reclaims of cores whose last usage
      is at least two are bounded by what they take out of the pool. */
  lemma ReclaimsAreFinite(s: Sys, tr: seq<Event>)
    requires MovedBy(s, tr).commits == 0
    ensures Run(s, tr).plant.pool <= s.plant.pool
    ensures MovedBy(s, tr).draws <= s.plant.pool - Run(s, tr).plant.pool
  {
    LedgerBalances(s, tr);
    AllDrawsArePaid(s, tr);
  }

  /** The core overflows with a last usage of at least two. */
  predicate HungryOverflow(s: Sys, e: Event, cpu: nat)
    requires Regulated(cpu)
  {
    e == Overflow(cpu) && s.plant.cores[cpu].read.used >= 2
  }

  function HungryOverflows(s: Sys, tr: seq<Event>, cpu: nat): nat
    requires Regulated(cpu)
  {
    if tr == [] then 0
    else
      var k := |tr| - 1;
      HungryOverflows(s, tr[..k], cpu) + if HungryOverflow(Run(s, tr[..k]), tr[k], cpu) then 1 else 0
  }

  /** The overflow finds too little in the pool, so that the handler throttles the core. */
  predicate ThrottlingOverflow(s: Sys, e: Event, cpu: nat)
    requires Regulated(cpu)
  {
    e == Overflow(cpu) && s.plant.pool <= s.plant.cores[cpu].read.used
  }

  /** No overflow of the core throttles it. */
  ghost predicate NeverThrottled(s: Sys, tr: seq<Event>, cpu: nat)
    requires Regulated(cpu)
  {
    forall n | 0 <= n < |tr| :: !ThrottlingOverflow(Run(s, tr[..n]), tr[n], cpu)
  }

  lemma NeverThrottledPrefix(s: Sys, tr: seq<Event>, cpu: nat)
    requires Regulated(cpu) && NeverThrottled(s, tr, cpu) && tr != []
    ensures var k := |tr| - 1; NeverThrottled(s, tr[..k], cpu) && !ThrottlingOverflow(Run(s, tr[..k]), tr[k], cpu)
  {
    hide Run, ThrottlingOverflow;
    var k := |tr| - 1;
    assert forall n :: 0 <= n < k ==> tr[..k][..n] == tr[..n];
  }

  lemma HungryStep(s: Sys, e: Event, cpu: nat)
    requires Regulated(cpu) && !ThrottlingOverflow(s, e, cpu)
    ensures (if HungryOverflow(s, e, cpu) then 1 else 0) <= Moved(s, e).draws
  {
    hide Pass;
  }

  lemma {:induction false} HungryOverflowsDraw(s: Sys, tr: seq<Event>, cpu: nat)
    requires Regulated(cpu) && NeverThrottled(s, tr, cpu)
    ensures HungryOverflows(s, tr, cpu) <= MovedBy(s, tr).draws
  {
    if tr != [] {
      hide Run, Moved, HungryOverflow, ThrottlingOverflow, NeverThrottled;
      var k := |tr| - 1;
      NeverThrottledPrefix(s, tr, cpu);
      HungryOverflowsDraw(s, tr[..k], cpu);
      HungryStep(Run(s, tr[..k]), tr[k], cpu);
    }
  }

  lemma ThrottlingOverflowThrottles(s: Sys, e: Event, cpu: nat)
    requires Regulated(cpu) && ThrottlingOverflow(s, e, cpu)
    ensures Apply(s, e).plant.cores[cpu].throttled
  {
  }

  /** Main result: in every run without a credit, whatever else happens in it, a core that overflows more often with a
      last usage of at least two than the pool has units is throttled by one of its overflows. */
  lemma OverflowsThrottle(s: Sys, tr: seq<Event>, cpu: nat) returns (n: nat)
    requires Regulated(cpu) && MovedBy(s, tr).commits == 0 && HungryOverflows(s, tr, cpu) > s.plant.pool
    ensures n < |tr| && ThrottlingOverflow(Run(s, tr[..n]), tr[n], cpu)
    ensures Run(s, tr[..n + 1]).plant.cores[cpu].throttled
  {
    hide Apply, Moved, ThrottlingOverflow, HungryOverflows;
    if NeverThrottled(s, tr, cpu) {
      HungryOverflowsDraw(s, tr, cpu);
      ReclaimsAreFinite(s, tr);
      assert false;
    }
    n :| 0 <= n < |tr| && ThrottlingOverflow(Run(s, tr[..n]), tr[n], cpu);
    ThrottlingOverflowThrottles(Run(s, tr[..n]), tr[n], cpu);
    assert tr[..n + 1][..n] == tr[..n];
  }

  /** n overflows of one core in a row. */
  function Overflows(p: Plant, cpu: nat, n: nat, t: nat): Plant
    requires Regulated(cpu) && RegulationTime(t)
  {
    if n == 0 then p else OverflowOn(Overflows(p, cpu, n - 1, t), cpu, t)
  }

  lemma {:induction false} OverflowsDrain(p: Plant, cpu: nat, n: nat, t: nat)
    requires Regulated(cpu) && RegulationTime(t)
    ensures var c, q, c' := p.cores[cpu], Overflows(p, cpu, n, t), Overflows(p, cpu, n, t).cores[cpu];
            && c'.read.used == c.read.used
            && (c.throttled ==> c'.throttled)
            && (c'.throttled || c.read.used < 2 || q.pool + n <= p.pool)
            && (c.read.used < 2 && c.read.used < p.pool ==> q.pool == p.pool && c'.throttled == c.throttled)
  {
    hide Pass;
    if n > 0 { OverflowsDrain(p, cpu, n - 1, t); }
  }

  /** A core that keeps overflowing is throttled sooner or later exactly when it is throttled already, its last usage is
      at least two, or the pool does not exceed that usage. With a last usage of zero or one and a larger pool the
      handler reclaims nothing, again and again. */
  lemma EventuallyThrottledIff(p: Plant, cpu: nat, t: nat)
    requires Regulated(cpu) && RegulationTime(t)
    ensures var c := p.cores[cpu];
            (exists n: nat :: Overflows(p, cpu, n, t).cores[cpu].throttled)
            <==> c.throttled || c.read.used >= 2 || p.pool <= c.read.used
  {
    if n: nat :| Overflows(p, cpu, n, t).cores[cpu].throttled {
      OverflowsDrain(p, cpu, n, t);
    }
    if p.cores[cpu].throttled {
      assert Overflows(p, cpu, 0, t).cores[cpu].throttled;
    }
    ThrottledInTime(p, cpu, t);
  }

  lemma ThrottledInTime(p: Plant, cpu: nat, t: nat)
    requires Regulated(cpu) && RegulationTime(t)
    ensures var c := p.cores[cpu];
            c.read.used >= 2 || p.pool <= c.read.used ==>
              Overflows(p, cpu, p.pool + 1, t).cores[cpu].throttled || Overflows(p, cpu, 1, t).cores[cpu].throttled
  {
    OverflowsDrain(p, cpu, p.pool + 1, t);
    assert Overflows(p, cpu, 1, t) == OverflowOn(Overflows(p, cpu, 0, t), cpu, t) == OverflowOn(p, cpu, t);
  }

  // ---------------------------------------------------------------- pool growth

  /** The limits of a core are like the defaults, and this pass predicts no negative demand. */
  predicate RationedPass(s: Sys, e: Event)
  {
    TakesPass(s, e) ==>
      var c := s.plant.cores[s.pc.cpu];
      var (c', v) := Pass(c, e.readEvents, e.writeEvents, s.t);
      && c.maxBw <= 2 * c.initialBw
      && (v.Committed? ==> c'.read.next >= c.initialBw && c'.write.next >= c.initialBw)
  }

  lemma CommittedAllocations(c: Core, readEvents: nat, writeEvents: nat, t: nat)
    requires RegulationTime(t)
    ensures var (c', v) := Pass(c, readEvents, writeEvents, t);
            v.Committed? ==> c'.read.next >= 0 && c'.write.next >= 0
                             && (v.readAllocation, v.writeAllocation) == Allocate(c.maxBw, c'.read.next, c'.write.next)
  {
    hide EventsToMb, MbToEvents, Allocate, Update, Predict;
  }

  lemma StepIsRationed(s: Sys, e: Event)
    requires RationedPass(s, e)
    ensures Apply(s, e).plant.pool <= s.plant.pool + Moved(s, e).commits
  {
    hide Pass, CoreStep, Allocate;
    if TakesPass(s, e) {
      var c := s.plant.cores[s.pc.cpu];
      var (c', v) := Pass(c, e.readEvents, e.writeEvents, s.t);
      CommittedAllocations(c, e.readEvents, e.writeEvents, s.t);
      if v.Committed? { SplitIsSafe(c.maxBw, c'.read.next, c'.write.next); }
    }
  }

  /** Every commit of a run credits the pool by at most one, so the pool grows at most by the number of commits. */
  lemma {:induction false} PoolGrowthIsRationed(s: Sys, tr: seq<Event>)
    requires forall n | 0 <= n < |tr| :: RationedPass(Run(s, tr[..n]), tr[n])
    ensures Run(s, tr).plant.pool <= s.plant.pool + MovedBy(s, tr).commits
  {
    if tr != [] {
      hide Apply, Moved, RationedPass;
      var k := |tr| - 1;
      assert forall n :: 0 <= n < k ==> tr[..k][..n] == tr[..n];
      PoolGrowthIsRationed(s, tr[..k]);
      StepIsRationed(Run(s, tr[..k]), tr[k]);
    }
  }
}
