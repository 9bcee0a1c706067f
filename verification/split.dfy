/** The proportional split of a core's bandwidth limit between reads and writes. */
module Split {
  import opened Machine
  import opened Rounding

  /** One share of the limit, in proportion to its estimate. */
  function Share(limit: nat, estimate: nat, total: nat): nat
    requires total > 0
  {
    QuotientMonotone(0, limit * estimate, total);
    limit * estimate / total
  }

  /** The two allocations for a pair of estimates. */
  function Allocate(limit: nat, readEstimate: nat, writeEstimate: nat): (nat, nat)
  {
    var total := readEstimate + writeEstimate;
    if total <= limit then (readEstimate, writeEstimate)
    else (Share(limit, readEstimate, total), Share(limit, writeEstimate, total))
  }

  /** The split as the master computes it, in unsigned 64-bit arithmetic. */
  method SplitLimit(limit: nat, readEstimate: nat, writeEstimate: nat)
    returns (readAllocation: nat, writeAllocation: nat, credit: nat)
    requires limit < S32 && readEstimate < U32 && writeEstimate < U32
    ensures (readAllocation, writeAllocation) == Allocate(limit, readEstimate, writeEstimate)
    ensures credit == limit - (readAllocation + writeAllocation)
  {
    hide Share;
    var total := readEstimate + writeEstimate;
    if total <= limit {
      readAllocation, writeAllocation := readEstimate, writeEstimate;
    } else {
      readAllocation := ComputeShare(limit, readEstimate, total);
      writeAllocation := ComputeShare(limit, writeEstimate, total);
    }
    SplitIsSafe(limit, readEstimate, writeEstimate);
    var totalAllocation := Low64(readAllocation + writeAllocation);
    credit := Sub64(limit, totalAllocation);
  }

  method ComputeShare(limit: nat, estimate: nat, total: nat) returns (share: nat)
    requires limit < S32 && estimate < U32 && total > 0
    ensures share == Share(limit, estimate, total)
  {
    EstimateFits(limit, estimate);
    QuotientMonotone(0, limit * estimate, total);
    share := Low64(limit * estimate) / total;
  }

  lemma EstimateFits(limit: nat, estimate: nat)
    requires limit < S32 && estimate < U32
    ensures Low64(limit * estimate) == limit * estimate
  {
    MulMonotone(limit, 0x8000_0000, estimate);
    LowIdentity(limit * estimate);
  }

  /** One proportional share: never above its own estimate, and within one of the exact proportion. */
  lemma ShareBounds(limit: nat, estimate: nat, total: nat)
    requires limit < total && estimate <= total
    ensures var share := Share(limit, estimate, total);
            share <= estimate && limit * estimate - share * total == limit * estimate % total
  {
    FloorIff(limit * estimate, total, estimate + 1);
    assert (estimate + 1) * total == total * estimate + total;
    MulMonotone(limit, total, estimate);
    Remainder(limit * estimate, total);
  }

  lemma ModBelow(a: nat, d: nat)
    requires d > 0
    ensures 0 <= a % d < d
  {
  }

  /** Both shares together lose at most one unit of the limit to rounding, and none exactly when the total
      divides the limit's multiple of either estimate. */
  lemma SharesAddUp(limit: nat, r: nat, w: nat)
    requires limit < r + w
    ensures var sum := Share(limit, r, r + w) + Share(limit, w, r + w);
            limit - 1 <= sum <= limit && (sum == limit <==> limit * r % (r + w) == 0)
  {
    var t := r + w;
    var a, b := Share(limit, r, t), Share(limit, w, t);
    hide Share;
    ShareBounds(limit, r, t);
    ShareBounds(limit, w, t);
    ModBelow(limit * r, t);
    ModBelow(limit * w, t);
    ShareRemainders(limit, r, w, a, b);
    Multiple(limit - (a + b), t);
  }

  /** What both shares round away is a multiple of the total. */
  lemma ShareRemainders(limit: nat, r: nat, w: nat, a: nat, b: nat)
    ensures (limit - (a + b)) * (r + w) == (limit * r - a * (r + w)) + (limit * w - b * (r + w))
  {
    var t := r + w;
    assert limit * r + limit * w == limit * t;
    assert (limit - (a + b)) * t == limit * t - (a + b) * t;
    assert (a + b) * t == a * t + b * t;
  }

  lemma Multiple(k: int, t: nat)
    requires t > 0
    ensures k < 0 ==> k * t + t <= 0
    ensures k > 1 ==> k * t >= 2 * t
  {
    if k < 0 {
      MulMonotone(k, -1, t);
    } else if k > 1 {
      MulMonotone(2, k, t);
    }
  }

  /** Main result: the split is safe, work-conserving and fair for all estimates. */
  lemma SplitIsSafe(limit: nat, r: nat, w: nat)
    ensures var (a, b) := Allocate(limit, r, w);
            && a <= r && b <= w
            && Min(r + w, limit) - 1 <= a + b <= Min(r + w, limit)
            && (r >= w ==> a >= b) && (r <= w ==> a <= b)
  {
    if r + w > limit {
      ShareBounds(limit, r, r + w);
      ShareBounds(limit, w, r + w);
      SharesAddUp(limit, r, w);
      ShareMonotone(limit, r, w, r + w);
      ShareMonotone(limit, w, r, r + w);
      hide Share;
    }
  }

  lemma ShareMonotone(limit: nat, x: nat, y: nat, total: nat)
    requires total > 0
    ensures x <= y ==> Share(limit, x, total) <= Share(limit, y, total)
  {
    if x <= y {
      MulMonotone(x, y, limit);
      QuotientMonotone(limit * x, limit * y, total);
    }
  }

  lemma ShareIsQuotient(limit: nat, estimate: nat, total: nat)
    requires total > 0
    ensures var share := Share(limit, estimate, total);
            share * total <= limit * estimate < (share + 1) * total
  {
    Remainder(limit * estimate, total);
    assert (Share(limit, estimate, total) + 1) * total == Share(limit, estimate, total) * total + total;
  }

  /** Within the limit everybody gets the own estimate; above it each allocation is the limit's share in proportion to
      the estimate, rounded down. */
  lemma SharesAreProportional(limit: nat, r: nat, w: nat)
    ensures var (a, b) := Allocate(limit, r, w);
            && (r + w <= limit ==> a == r && b == w)
            && (r + w > limit ==>
                  && a * (r + w) <= limit * r < (a + 1) * (r + w)
                  && b * (r + w) <= limit * w < (b + 1) * (r + w))
  {
    if r + w > limit {
      ShareIsQuotient(limit, r, r + w);
      ShareIsQuotient(limit, w, r + w);
      hide Share;
    }
  }

  /** The whole limit is handed out, or the whole demand met, except when the shares round: the unit lost then
      is credited to the pool. */
  lemma SplitConservesIff(limit: nat, r: nat, w: nat)
    ensures var (a, b) := Allocate(limit, r, w);
            a + b == Min(r + w, limit) <==> r + w <= limit || limit * r % (r + w) == 0
  {
    if r + w > limit { SharesAddUp(limit, r, w); }
  }
}
