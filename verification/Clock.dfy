/** Wall-clock windows: which cycle a time belongs to, and the deadlines derived from it. */
module Clock {
  import opened Binary

  function CycleIndex(now: U64, cycleMs: U64): (r: U64)
    ensures cycleMs > 0 ==> r * cycleMs <= now < r * cycleMs + cycleMs
    ensures cycleMs == 0 ==> r == 0
  {
    if cycleMs == 0 then 0 else Quotient(now, cycleMs); now / cycleMs
  }

  lemma Quotient(n: nat, d: nat)
    requires d > 0
    ensures 0 <= n / d <= n && (n / d) * d <= n < (n / d) * d + d
  {
    var q := n / d;
    assert n == q * d + n % d;
    if q > n { Scale(n + 1, q, d); }
  }

  lemma Scale(a: int, b: int, d: nat)
    requires a <= b
    ensures a * d <= b * d
  {
    assert (b - a) * d >= 0;
    assert b * d == a * d + (b - a) * d;
  }

  lemma IndexAtLeast(t: U64, d: U64, c: nat)
    requires d > 0
    ensures CycleIndex(t, d) >= c <==> t >= c * d
  {
    var i := CycleIndex(t, d);
    assert (i + 1) * d == i * d + d;
    if i >= c { Scale(c, i, d); } else { Scale(i + 1, c, d); }
  }

  predicate AllowsIngress(messageCycle: U64, now: U64, cycleMs: U64, slack: U64) {
    cycleMs == 0 ||
    var w := CycleIndex(now, cycleMs);
    SatSub(w, slack) <= messageCycle <= SatAdd(w, slack)
  }

  /** A message is let in exactly when its cycle is within `slack` of the receiver's own, or there are
      no cycles. */
  lemma IngressIsDistance(messageCycle: U64, now: U64, cycleMs: U64, slack: U64)
    ensures AllowsIngress(messageCycle, now, cycleMs, slack) <==>
              cycleMs == 0 ||
              (messageCycle <= CycleIndex(now, cycleMs) + slack && CycleIndex(now, cycleMs) <= messageCycle + slack)
  {}

  lemma QuotientGap(a: U64, b: U64, d: U64, k: nat)
    requires d > 0
    ensures a - b <= k * d ==> CycleIndex(a, d) - CycleIndex(b, d) <= k
    ensures a - b >= (k + 1) * d ==> CycleIndex(a, d) - CycleIndex(b, d) > k
  {
    var x, y := CycleIndex(a, d), CycleIndex(b, d);
    assert (y + k) * d == y * d + k * d && (y + k + 1) * d == y * d + k * d + d;
    if x > y + k { Scale(y + k + 1, x, d); }
    if x <= y + k { Scale(x, y + k, d); }
    assert (k + 1) * d == k * d + d;
  }

  /** Clocks within `slack` cycles of each other admit each other's current cycle, and clocks
      at least one more cycle apart never do. */
  lemma IngressTracksClocks(sender: U64, receiver: U64, cycleMs: U64, slack: U64)
    requires cycleMs > 0
    ensures -(slack * cycleMs) <= sender - receiver <= slack * cycleMs ==>
              AllowsIngress(CycleIndex(sender, cycleMs), receiver, cycleMs, slack)
    ensures sender - receiver >= (slack + 1) * cycleMs || receiver - sender >= (slack + 1) * cycleMs ==>
              !AllowsIngress(CycleIndex(sender, cycleMs), receiver, cycleMs, slack)
  {
    QuotientGap(sender, receiver, cycleMs, slack);
    QuotientGap(receiver, sender, cycleMs, slack);
    IngressIsDistance(CycleIndex(sender, cycleMs), receiver, cycleMs, slack);
  }

  function ConfirmationDeadline(now: U64, grace: U64, cycle: U64, cycleMs: U64): U64 {
    var fixed := SatAdd(now, grace);
    if cycleMs == 0 then fixed else Max(fixed, SatMul(SatAdd(cycle, 1), cycleMs))
  }

  /** The wait never ends inside the cycle it confirms, exactly when the end of that cycle is a
      representable time. */
  lemma DeadlineAfterSlotExactly(now: U64, grace: U64, cycle: U64, cycleMs: U64)
    requires cycleMs > 0
    ensures CycleIndex(ConfirmationDeadline(now, grace, cycle, cycleMs), cycleMs) >= cycle + 1 <==>
              (cycle + 1) * cycleMs <= MAX_U64
    ensures ConfirmationDeadline(now, grace, cycle, cycleMs) >= SatAdd(now, grace)
  {
    IndexAtLeast(ConfirmationDeadline(now, grace, cycle, cycleMs), cycleMs, cycle + 1);
    LastCycleOverflows(cycle, cycleMs);
  }

  lemma LastCycleOverflows(cycle: U64, cycleMs: U64)
    requires cycleMs > 0
    ensures (cycle + 1) * cycleMs <= MAX_U64 ==> cycle < MAX_U64
    ensures (cycle + 1) * cycleMs > MAX_U64 ==> SatMul(SatAdd(cycle, 1), cycleMs) < (cycle + 1) * cycleMs
  {
    Scale(1, cycleMs, cycle + 1);
  }

  /** And it ends no later than that: at the first time that is past both the grace period and the
      cycle. Without cycles it is the grace period alone. */
  lemma DeadlineIsFirst(now: U64, grace: U64, cycle: U64, cycleMs: U64, t: U64)
    requires cycleMs > 0 ==> (cycle + 1) * cycleMs <= MAX_U64
    requires now + grace <= MAX_U64
    ensures var deadline := ConfirmationDeadline(now, grace, cycle, cycleMs);
            if cycleMs == 0 then deadline == now + grace
            else t >= deadline <==> t >= now + grace && CycleIndex(t, cycleMs) >= cycle + 1
  {
    if cycleMs > 0 {
      IndexAtLeast(t, cycleMs, cycle + 1);
      LastCycleOverflows(cycle, cycleMs);
    }
  }

  function FollowerDeadline(now: U64, cycle: U64, cycleMs: U64, budget: U64): U64 {
    Min(SatAdd(now, budget), SatSub(SatMul(SatAdd(cycle, 1), cycleMs), 2_000))
  }

  function FollowerHardStop(cycle: U64, cycleMs: U64): U64 { SatSub(SatMul(SatAdd(cycle, 1), cycleMs), 500) }

  /** Short of overflow the soft deadline precedes the hard stop if and only if the cycle ends
      more than 500 ms after time zero, and the hard stop lies in the cycle's own slot if and only
      if cycles last at least 500 ms or it is the first cycle. */
  lemma FollowerStopsExactly(now: U64, cycle: U64, cycleMs: U64, budget: U64)
    requires cycleMs > 0 && (cycle + 1) * cycleMs <= MAX_U64
    ensures FollowerDeadline(now, cycle, cycleMs, budget) < FollowerHardStop(cycle, cycleMs) <==>
              (cycle + 1) * cycleMs > 500
    ensures CycleIndex(FollowerHardStop(cycle, cycleMs), cycleMs) == cycle <==> cycleMs >= 500 || cycle == 0
  {
    LastCycleOverflows(cycle, cycleMs);
    var stop := FollowerHardStop(cycle, cycleMs);
    assert (cycle + 1) * cycleMs == cycle * cycleMs + cycleMs;
    Scale(0, cycle, cycleMs);
    if cycle > 0 { Scale(1, cycle, cycleMs); }
    IndexAtLeast(stop, cycleMs, cycle);
    IndexAtLeast(stop, cycleMs, cycle + 1);
  }

  /** A follower waits its budget, or until two seconds before the cycle ends if that is earlier. */
  lemma FollowerWaits(now: U64, cycle: U64, cycleMs: U64, budget: U64)
    requires cycleMs > 0 && (cycle + 1) * cycleMs <= MAX_U64
    ensures var latest := Max(0, (cycle + 1) * cycleMs - 2_000);
            FollowerDeadline(now, cycle, cycleMs, budget) == if now + budget <= latest then now + budget else latest
  {
    LastCycleOverflows(cycle, cycleMs);
  }

  /** So with cycles of at least two seconds a follower stops waiting before the hard stop, which
      still lies in the cycle's own slot. */
  lemma FollowerStopsInSlot(now: U64, cycle: U64, cycleMs: U64, budget: U64)
    requires cycleMs >= 2_000 && (cycle + 1) * cycleMs <= MAX_U64
    ensures FollowerDeadline(now, cycle, cycleMs, budget) < FollowerHardStop(cycle, cycleMs)
    ensures CycleIndex(FollowerHardStop(cycle, cycleMs), cycleMs) == cycle
  {
    Scale(1, cycle + 1, cycleMs);
    FollowerStopsExactly(now, cycle, cycleMs, budget);
  }
}
