/** The compensation entries: an exact split of the producer pool in saturating u64 arithmetic. */
module Rewards {
  import opened Binary
  import opened Sorting
  import opened Ledger

  const BPS: U64 := 10_000

  function Share(amount: U64, bps: U16): (r: U64)
    ensures bps <= BPS ==> r <= amount
  {
    var product := SatMul(amount, bps);
    ShareBound(amount, bps);
    product / BPS
  }

  lemma ShareBound(amount: U64, bps: U16)
    ensures bps <= BPS ==> SatMul(amount, bps) / BPS <= amount
  {
    if bps <= BPS {
      assert amount * bps <= amount * BPS by { MulMonotone(amount, bps, BPS); }
    }
  }

  lemma MulMonotone(a: int, b: int, c: int)
    requires 0 <= a && b <= c
    ensures a * b <= a * c
  {}

  function ProducerPool(config: RewardConfig, totalFees: U64): U64 {
    var fromFees := Share(totalFees, config.feeToRewardPoolBps);
    var total := SatAdd(config.blockReward, fromFees);
    Share(total, config.producerSetRewardBps)
  }

  /** The i-th producer in sorted order; the first `extra` producers get one unit more. */
  function Reward(keyOf: Id -> Hash, base: U64, extra: nat, sorted: seq<Id>, i: nat): CompensationEntry
    requires i < |sorted|
  {
    CompensationEntry(sorted[i], keyOf(sorted[i]), SatAdd(base, if i < extra then 1 else 0))
  }

  function Split(keyOf: Id -> Hash, base: U64, extra: nat, sorted: seq<Id>): (r: seq<CompensationEntry>)
    ensures |r| == |sorted|
    ensures forall i :: 0 <= i < |r| ==> r[i] == Reward(keyOf, base, extra, sorted, i)
  {
    seq(|sorted|, i requires 0 <= i < |sorted| => Reward(keyOf, base, extra, sorted, i))
  }

  function PerProducer(pool: U64, n: nat): U64
    requires n > 0
  {
    Division(pool, n);
    pool / n
  }

  function PoolRemainder(pool: U64, n: nat): nat
    requires n > 0
  {
    pool % n
  }

  function Compensation(keyOf: Id -> Hash, config: RewardConfig, totalFees: U64,
                        producers: seq<Id>): seq<CompensationEntry> {
    if producers == [] then []
    else
      var pool := ProducerPool(config, totalFees);
      Split(keyOf, PerProducer(pool, |producers|), PoolRemainder(pool, |producers|), SortBy(producers, Leq))
  }

  function ById(): (CompensationEntry, CompensationEntry) -> bool {
    (a: CompensationEntry, b: CompensationEntry) => Leq(a.producerId, b.producerId)
  }

  lemma {:induction false} SortOfSorted<T>(s: seq<T>, le: (T, T) -> bool)
    requires SortedBy(s, le)
    ensures SortBy(s, le) == s
  {
    if s != [] {
      SortOfSorted(s[1..], le);
      assert |s| > 1 ==> le(s[0], s[1]);
    }
  }

  method CreateCompensationEntries(keyOf: Id -> Hash, config: RewardConfig, totalFees: U64, producers: seq<Id>)
    returns (entries: seq<CompensationEntry>)
    ensures entries == Compensation(keyOf, config, totalFees, producers)
  {
    entries := [];
    if producers == [] { return; }
    var pool := ProducerPool(config, totalFees);
    entries := PayOut(keyOf, PerProducer(pool, |producers|), PoolRemainder(pool, |producers|), producers);
  }

  /** The remainder goes out in id order; sorting the entries afterwards changes nothing. */
  method PayOut(keyOf: Id -> Hash, perProducer: U64, poolRemainder: nat, producers: seq<Id>)
    returns (entries: seq<CompensationEntry>)
    ensures entries == Split(keyOf, perProducer, poolRemainder, SortBy(producers, Leq))
  {
    entries := DistributePool(keyOf, perProducer, poolRemainder, SortBy(producers, Leq));
    SplitStays(keyOf, perProducer, poolRemainder, producers);
    entries := SortBy(entries, ById());
  }

  /** The entries are already sorted by id when the loop ends. */
  lemma SplitStays(keyOf: Id -> Hash, base: U64, extra: nat, producers: seq<Id>)
    ensures var entries := Split(keyOf, base, extra, SortBy(producers, Leq));
            SortBy(entries, ById()) == entries
  {
    SplitIsSorted(keyOf, base, extra, producers);
    SortOfSorted(Split(keyOf, base, extra, SortBy(producers, Leq)), ById());
  }

  method DistributePool(keyOf: Id -> Hash, perProducer: U64, poolRemainder: nat, sorted: seq<Id>)
    returns (entries: seq<CompensationEntry>)
    ensures entries == Split(keyOf, perProducer, poolRemainder, sorted)
  {
    entries := [];
    var remainder := poolRemainder;
    for k := 0 to |sorted|
      invariant remainder == Max(0, poolRemainder - k)
      invariant entries == Split(keyOf, perProducer, poolRemainder, sorted)[..k]
    {
      var bonus := 0;
      if remainder > 0 {
        remainder := remainder - 1;
        bonus := 1;
      }
      entries := entries + [CompensationEntry(sorted[k], keyOf(sorted[k]), SatAdd(perProducer, bonus))];
    }
  }

  lemma SplitIsSorted(keyOf: Id -> Hash, base: U64, extra: nat, producers: seq<Id>)
    ensures SortedBy(Split(keyOf, base, extra, SortBy(producers, Leq)), ById())
  {
    LeqIsTotalPreorder();
    SortBySorted(producers, Leq);
  }

  // ---------- conservation ----------

  function TotalPaid(entries: seq<CompensationEntry>): nat {
    if entries == [] then 0 else TotalPaid(entries[..|entries| - 1]) + entries[|entries| - 1].amount
  }

  lemma {:induction false} PaidSoFar(keyOf: Id -> Hash, base: U64, extra: nat, sorted: seq<Id>, k: nat)
    requires k <= |sorted| && (base < MAX_U64 || extra == 0)
    ensures TotalPaid(Split(keyOf, base, extra, sorted)[..k]) == k * base + Min(k, extra)
    decreases k
  {
    var all := Split(keyOf, base, extra, sorted);
    if k > 0 {
      PaidSoFar(keyOf, base, extra, sorted, k - 1);
      assert all[..k][..k - 1] == all[..k - 1];
      assert all[..k][k - 1] == Reward(keyOf, base, extra, sorted, k - 1);
      OneMoreTime(k, base);
    }
  }

  lemma OneMoreTime(k: nat, base: nat)
    requires k > 0
    ensures (k - 1) * base + base == k * base
  {}

  lemma Division(pool: U64, n: nat)
    requires n > 0
    ensures n * (pool / n) + pool % n == pool && 0 <= pool % n < n
    ensures 0 <= pool / n <= pool
    ensures pool / n < MAX_U64 || pool % n == 0
  {
    var q := pool / n;
    assert pool == q * n + pool % n;
    if n == 1 {
      assert pool % n == 0;
    } else {
      MulMonotone(q, 2, n);
    }
  }

  /** The split pays out the pool exactly, no addition saturates, and no two rewards differ
      by more than one unit, for every list of producers and every u64 input. */
  lemma RewardsConserved(keyOf: Id -> Hash, config: RewardConfig, totalFees: U64, producers: seq<Id>)
    requires producers != []
    ensures var pool, n := ProducerPool(config, totalFees), |producers|;
            var paid := Compensation(keyOf, config, totalFees, producers);
            && |paid| == n
            && TotalPaid(paid) == pool
            && (forall i :: 0 <= i < n ==> paid[i].amount == pool / n + (if i < pool % n then 1 else 0))
            && (forall i, j :: 0 <= i < j < n ==> paid[j].amount <= paid[i].amount <= paid[j].amount + 1)
  {
    var pool, n, sorted := ProducerPool(config, totalFees), |producers|, SortBy(producers, Leq);
    SameElements(producers, sorted);
    Division(pool, n);
    SplitConserves(keyOf, pool / n, pool % n, sorted);
  }

  lemma SplitConserves(keyOf: Id -> Hash, base: U64, extra: nat, sorted: seq<Id>)
    requires extra <= |sorted| && (base < MAX_U64 || extra == 0)
    ensures var paid := Split(keyOf, base, extra, sorted);
            && TotalPaid(paid) == |sorted| * base + extra
            && (forall i :: 0 <= i < |sorted| ==> paid[i].amount == base + (if i < extra then 1 else 0))
            && (forall i, j :: 0 <= i < j < |sorted| ==> paid[j].amount <= paid[i].amount <= paid[j].amount + 1)
  {
    var paid := Split(keyOf, base, extra, sorted);
    PaidSoFar(keyOf, base, extra, sorted, |sorted|);
    assert paid[..|sorted|] == paid;
  }

  /** What is paid out never exceeds what was earned, whatever the block reward and the fees. */
  ghost predicate NeverOverpays(feeBps: U16, setBps: U16, waitingBps: U16) {
    forall reward: U64, fees: U64 :: Pool(reward, feeBps, setBps, waitingBps, fees) <= reward + fees
  }

  function Pool(reward: U64, feeBps: U16, setBps: U16, waitingBps: U16, fees: U64): U64 {
    ProducerPool(RewardConfig(reward, feeBps, setBps, waitingBps), fees)
  }

  /** Exactly when the producers' rate is at most 100% and so is its product with the fee rate;
      a fee rate above 100% alone does no harm. */
  lemma OverpaysExactly(feeBps: U16, setBps: U16, waitingBps: U16)
    ensures NeverOverpays(feeBps, setBps, waitingBps) <==> setBps <= BPS && feeBps * setBps <= BPS * BPS
  {
    if setBps <= BPS && feeBps * setBps <= BPS * BPS {
      forall reward: U64, fees: U64 ensures Pool(reward, feeBps, setBps, waitingBps, fees) <= reward + fees {
        WithinEarnings(reward, fees, feeBps, setBps, waitingBps);
      }
    }
    PoolOfReward(feeBps, setBps, waitingBps);
    PoolOfFees(feeBps, setBps, waitingBps);
    if NeverOverpays(feeBps, setBps, waitingBps) {
      assert Pool(10_000, feeBps, setBps, waitingBps, 0) <= 10_000;
      assert Pool(0, feeBps, setBps, waitingBps, 100_000_000) <= 100_000_000;
    }
  }

  /** A block reward of 10000 and no fees pay out the producers' rate. */
  lemma PoolOfReward(feeBps: U16, setBps: U16, waitingBps: U16)
    ensures Pool(10_000, feeBps, setBps, waitingBps, 0) == setBps
  {}

  /** Fees of 100000000 and no block reward pay out the product of the rates. */
  lemma PoolOfFees(feeBps: U16, setBps: U16, waitingBps: U16)
    ensures Pool(0, feeBps, setBps, waitingBps, 100_000_000) == feeBps * setBps
  {
    assert Share(100_000_000, feeBps) == 10_000 * feeBps;
    MulMonotone(feeBps, setBps, 65_535);
    assert Share(10_000 * feeBps, setBps) == feeBps * setBps by {
      assert (10_000 * feeBps) * setBps == 10_000 * (feeBps * setBps);
    }
  }

  lemma ShareScaled(amount: U64, bps: U16)
    ensures 0 <= Share(amount, bps) * BPS <= amount * bps
  {}

  lemma WithinEarnings(reward: U64, fees: U64, feeBps: U16, setBps: U16, waitingBps: U16)
    requires setBps <= BPS && feeBps * setBps <= BPS * BPS
    ensures Pool(reward, feeBps, setBps, waitingBps, fees) <= reward + fees
  {
    var fromFees := Share(fees, feeBps);
    var total := SatAdd(reward, fromFees);
    ShareScaled(fees, feeBps);
    ShareScaled(total, setBps);
    FeesWithinFees(fees, fromFees, feeBps, setBps);
    TotalWithin(reward, fees, fromFees, total, setBps, Share(total, setBps));
  }

  lemma TotalWithin(reward: nat, fees: nat, fromFees: nat, total: nat, setBps: nat, pool: nat)
    requires total <= reward + fromFees && setBps <= BPS
    requires fromFees * setBps <= fees * BPS && pool * BPS <= total * setBps
    ensures pool <= reward + fees
  {
    MulMonotone(setBps, total, reward + fromFees);
    MulMonotone(reward, setBps, BPS);
    assert setBps * (reward + fromFees) == reward * setBps + fromFees * setBps;
  }

  lemma FeesWithinFees(fees: nat, fromFees: nat, feeBps: nat, setBps: nat)
    requires fromFees * BPS <= fees * feeBps && feeBps * setBps <= BPS * BPS
    ensures fromFees * setBps <= fees * BPS
  {
    MulMonotone(setBps, fromFees * BPS, fees * feeBps);
    Shuffle(fromFees, BPS, setBps);
    Shuffle(fees, feeBps, setBps);
    MulMonotone(fees, feeBps * setBps, BPS * BPS);
    assert fees * (BPS * BPS) == (fees * BPS) * BPS;
  }

  lemma Shuffle(a: nat, b: nat, c: nat)
    ensures c * (a * b) == (a * c) * b == a * (b * c)
  {}

  /** A fee rate of 200% overpays at a producers' rate of 100%, and not at 50%. */
  lemma DoubledFeesCanOverpay()
    ensures Pool(0, 20_000, 10_000, 0, 1) == 2
    ensures NeverOverpays(20_000, 5_000, 0) && !NeverOverpays(20_000, 10_000, 0)
  {
    OverpaysExactly(20_000, 5_000, 0);
    OverpaysExactly(20_000, 10_000, 0);
  }

  /** Short of saturation: the rate of the fees joins the block reward, and the producers' rate of
      the sum is paid, each rounded down. */
  lemma PoolExactly(config: RewardConfig, totalFees: U64)
    requires totalFees * config.feeToRewardPoolBps <= MAX_U64
    requires var total := config.blockReward + totalFees * config.feeToRewardPoolBps / 10_000;
             total <= MAX_U64 && total * config.producerSetRewardBps <= MAX_U64
    ensures var total := config.blockReward + totalFees * config.feeToRewardPoolBps / 10_000;
            ProducerPool(config, totalFees) == total * config.producerSetRewardBps / 10_000
  {}

  lemma SortedIdsAgree(a: seq<Id>, b: seq<Id>)
    requires multiset(a) == multiset(b)
    ensures |a| == |b| && SortBy(a, Leq) == SortBy(b, Leq)
  {
    SameElements(a, b);
    LeqIsTotalPreorder();
    forall i, j | 0 <= i < |a| && 0 <= j < |a| && Leq(a[i], a[j]) && Leq(a[j], a[i]) ensures a[i] == a[j] {
      LeqAntisymmetric(a[i], a[j]);
    }
    SortOfPermutations(a, b, Leq);
  }

  /** The order in which producers are listed does not matter. */
  lemma CompensationIgnoresOrder(keyOf: Id -> Hash, config: RewardConfig, totalFees: U64, a: seq<Id>, b: seq<Id>)
    requires multiset(a) == multiset(b)
    ensures Compensation(keyOf, config, totalFees, a) == Compensation(keyOf, config, totalFees, b)
  {
    SortedIdsAgree(a, b);
  }
}
