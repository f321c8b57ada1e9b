/** Envelopes and the bounded pending queue. */
module Network {
  import opened Binary
  import opened Ledger

  datatype Kind = QuantityKind | CandidateKind | VoteKind | OutputKind | SyncKind | OtherKind(code: nat)

  datatype Message =
    | QuantityMsg(quantity: Quantity)
    | CandidateMsg(candidate: Candidate)
    | VoteMsg(vote: Vote)
    | OutputMsg(output: Output)
    | UpdateMsg(broadcast: LsuBroadcast)

  /** The body is None when the payload cannot be read as a consensus message. */
  datatype Envelope = Envelope(kind: Kind, body: Option<Message>)

  const MAX_PENDING: nat := 10_000

  // ---------- the queue ----------

  function PushBounded(q: seq<Envelope>, e: Envelope): (r: seq<Envelope>)
    ensures |q| <= MAX_PENDING ==> |r| <= MAX_PENDING
  {
    (if |q| >= MAX_PENDING then q[1..] else q) + [e]
  }

  /** The envelopes of the kind (`yes`) or of the other kinds (`!yes`), in order. */
  function OfKind(q: seq<Envelope>, k: Kind, yes: bool): (r: seq<Envelope>)
    ensures |r| <= |q|
  {
    if q == [] then []
    else
      var n := |q| - 1;
      OfKind(q[..n], k, yes) + (if (q[n].kind == k) == yes then [q[n]] else [])
  }

  class PendingEnvelopes {
    var pending: seq<Envelope>

    constructor ()
      ensures pending == []
    {
      pending := [];
    }

    method Push(e: Envelope)
      modifies this
      ensures pending == PushBounded(old(pending), e)
    {
      if |pending| >= MAX_PENDING {
        pending := pending[1..];
      }
      pending := pending + [e];
    }

    method DrainByKind(want: Kind) returns (out: seq<Envelope>)
      modifies this
      ensures out == OfKind(old(pending), want, true)
      ensures pending == OfKind(old(pending), want, false)
    {
      out := [];
      if pending == [] { return; }
      var keep: seq<Envelope> := [];
      ghost var all := pending;
      ghost var done := 0;
      while pending != []
        invariant done <= |all| && pending == all[done..]
        invariant out == OfKind(all[..done], want, true)
        invariant keep == OfKind(all[..done], want, false)
        decreases |pending|
      {
        var e := pending[0];
        pending := pending[1..];
        if e.kind == want {
          out := out + [e];
        } else {
          keep := keep + [e];
        }
        done := done + 1;
        assert all[..done][..done - 1] == all[..done - 1];
      }
      assert all[..done] == all;
      pending := keep;
    }
  }

  // ---------- every interleaving of pushes and drains ----------

  datatype QueueOp = PushOp(e: Envelope) | DrainOp(want: Kind)

  /** A run of the queue, with envelopes named by their arrival number. */
  datatype QueueRun = QueueRun(pushed: seq<Envelope>, queue: seq<nat>, drains: seq<seq<nat>>, evicted: seq<nat>)

  ghost function Pick(pushed: seq<Envelope>, q: seq<nat>, k: Kind, yes: bool): seq<nat>
    requires forall i :: 0 <= i < |q| ==> q[i] < |pushed|
  {
    if q == [] then []
    else
      var n := |q| - 1;
      Pick(pushed, q[..n], k, yes) + (if (pushed[q[n]].kind == k) == yes then [q[n]] else [])
  }

  ghost predicate Known(s: QueueRun) {
    forall i :: 0 <= i < |s.queue| ==> s.queue[i] < |s.pushed|
  }

  ghost function RunOp(s: QueueRun, op: QueueOp): QueueRun
    requires Known(s)
  {
    match op
    case PushOp(e) =>
      var full := |s.queue| >= MAX_PENDING;
      QueueRun(s.pushed + [e], (if full then s.queue[1..] else s.queue) + [|s.pushed|], s.drains,
               if full then s.evicted + [s.queue[0]] else s.evicted)
    case DrainOp(k) =>
      QueueRun(s.pushed, Pick(s.pushed, s.queue, k, false), s.drains + [Pick(s.pushed, s.queue, k, true)], s.evicted)
  }

  ghost predicate Ascending(s: seq<nat>) { forall i, j :: 0 <= i < j < |s| ==> s[i] < s[j] }

  ghost predicate AnyDrain(drains: seq<seq<nat>>, x: nat) {
    exists d :: 0 <= d < |drains| && x in drains[d]
  }

  /** Bounded, in arrival order, evicting only what is older than everything still queued. */
  ghost predicate InOrder(s: QueueRun) {
    && |s.queue| <= MAX_PENDING
    && Ascending(s.queue) && Ascending(s.evicted)
    && (forall d :: 0 <= d < |s.drains| ==> Ascending(s.drains[d]))
    && (forall x, y :: x in s.evicted && y in s.queue ==> x < y)
  }

  /** Every arrival is in exactly one place: queued, in exactly one drain, or evicted. */
  ghost predicate Partitioned(s: QueueRun) {
    && (forall x :: x in s.queue ==> x < |s.pushed|)
    && (forall x: nat :: x < |s.pushed| ==> x in s.queue || AnyDrain(s.drains, x) || x in s.evicted)
    && (forall x :: x in s.queue ==> !AnyDrain(s.drains, x) && x !in s.evicted)
    && (forall x :: x in s.evicted ==> x < |s.pushed| && !AnyDrain(s.drains, x))
    && (forall c, d, x :: 0 <= c < d < |s.drains| && x in s.drains[c] ==> x !in s.drains[d])
    && (forall d, x :: 0 <= d < |s.drains| && x in s.drains[d] ==> x < |s.pushed|)
  }

  ghost predicate Good(s: QueueRun) { InOrder(s) && Partitioned(s) }

  ghost const EMPTY_RUN: QueueRun := QueueRun([], [], [], [])

  lemma GoodKnown(s: QueueRun)
    requires Good(s)
    ensures Known(s)
  {
    forall i | 0 <= i < |s.queue| ensures s.queue[i] < |s.pushed| { assert s.queue[i] in s.queue; }
  }

  lemma {:induction false} PickFacts(pushed: seq<Envelope>, q: seq<nat>, k: Kind, yes: bool)
    requires forall i :: 0 <= i < |q| ==> q[i] < |pushed|
    requires Ascending(q)
    ensures |Pick(pushed, q, k, yes)| <= |q|
    ensures Ascending(Pick(pushed, q, k, yes))
    ensures forall x :: x in Pick(pushed, q, k, yes) <==> x in q && (pushed[x].kind == k) == yes
  {
    if q != [] {
      var n := |q| - 1;
      PickFacts(pushed, q[..n], k, yes);
      assert q == q[..n] + [q[n]];
      var front := Pick(pushed, q[..n], k, yes);
      forall i | 0 <= i < |front| ensures front[i] < q[n] {
        assert front[i] in front;
        assert front[i] in q[..n];
      }
    }
  }

  /** Dropping the oldest queued envelope moves it to the evicted ones. */
  ghost function EvictOldest(s: QueueRun): QueueRun {
    if |s.queue| < MAX_PENDING then s
    else s.(queue := s.queue[1..], evicted := s.evicted + [s.queue[0]])
  }

  lemma EvictGood(s: QueueRun)
    requires Good(s)
    ensures Good(EvictOldest(s)) && |EvictOldest(s).queue| < MAX_PENDING
  {
    if |s.queue| >= MAX_PENDING {
      var t, oldest := EvictOldest(s), s.queue[0];
      assert s.queue == [oldest] + t.queue;
      assert forall x :: x in s.queue <==> x == oldest || x in t.queue;
      assert forall x :: x in t.evicted <==> x in s.evicted || x == oldest;
      forall y | y in t.queue ensures oldest < y {}
      forall i | 0 <= i < |s.evicted| ensures s.evicted[i] < oldest {
        assert s.evicted[i] in s.evicted && oldest in s.queue;
      }
    }
  }

  lemma AppendGood(s: QueueRun, e: Envelope)
    requires Good(s) && |s.queue| < MAX_PENDING
    ensures Good(s.(pushed := s.pushed + [e], queue := s.queue + [|s.pushed|]))
  {
    var t := s.(pushed := s.pushed + [e], queue := s.queue + [|s.pushed|]);
    GoodKnown(s);
    assert forall x :: x in t.queue <==> x in s.queue || x == |s.pushed|;
    assert !AnyDrain(s.drains, |s.pushed|);
    forall x: nat | x < |t.pushed| ensures x in t.queue || AnyDrain(t.drains, x) || x in t.evicted {
      if x < |s.pushed| { assert x in s.queue || AnyDrain(s.drains, x) || x in s.evicted; }
    }
  }

  lemma PushStepGood(s: QueueRun, e: Envelope)
    requires Good(s) && Known(s)
    ensures Good(RunOp(s, PushOp(e)))
  {
    EvictGood(s);
    AppendGood(EvictOldest(s), e);
  }

  lemma DrainStepOrdered(s: QueueRun, k: Kind)
    requires Good(s) && Known(s)
    ensures InOrder(RunOp(s, DrainOp(k)))
  {
    PickFacts(s.pushed, s.queue, k, false);
    PickFacts(s.pushed, s.queue, k, true);
  }

  /** A new drain adds its envelopes to the drained ones. */
  lemma AnyDrainGrows(drains: seq<seq<nat>>, taken: seq<nat>, x: nat)
    ensures AnyDrain(drains + [taken], x) <==> AnyDrain(drains, x) || x in taken
  {
    var all, m := drains + [taken], |drains|;
    if AnyDrain(drains, x) {
      var d :| 0 <= d < m && x in drains[d];
      assert all[d] == drains[d];
    }
    if x in taken { assert x in all[m]; }
    if AnyDrain(all, x) {
      var d :| 0 <= d < |all| && x in all[d];
      if d < m { assert drains[d] == all[d]; }
    }
  }

  lemma DrainsStayApart(s: QueueRun, taken: seq<nat>)
    requires Partitioned(s) && forall x :: x in taken ==> x in s.queue
    ensures var all := s.drains + [taken];
            && (forall c, d, x :: 0 <= c < d < |all| && x in all[c] ==> x !in all[d])
            && (forall d, x :: 0 <= d < |all| && x in all[d] ==> x < |s.pushed|)
  {
    var all, m := s.drains + [taken], |s.drains|;
    forall c, d, x | 0 <= c < d < |all| && x in all[c] ensures x !in all[d] {
      assert all[c] == s.drains[c];
      assert AnyDrain(s.drains, x);
      if d < m { assert all[d] == s.drains[d]; }
    }
    forall d, x | 0 <= d < |all| && x in all[d] ensures x < |s.pushed| {
      if d < m { assert all[d] == s.drains[d]; }
    }
  }

  lemma DrainStepPartitioned(s: QueueRun, k: Kind)
    requires Good(s) && Known(s)
    ensures Partitioned(RunOp(s, DrainOp(k)))
  {
    var t := RunOp(s, DrainOp(k));
    var taken := Pick(s.pushed, s.queue, k, true);
    PickFacts(s.pushed, s.queue, k, false);
    PickFacts(s.pushed, s.queue, k, true);
    forall x: nat ensures AnyDrain(t.drains, x) <==> AnyDrain(s.drains, x) || x in taken {
      AnyDrainGrows(s.drains, taken, x);
    }
    DrainsStayApart(s, taken);
  }

  lemma StepGood(s: QueueRun, op: QueueOp)
    requires Good(s) && Known(s)
    ensures Good(RunOp(s, op)) && Known(RunOp(s, op))
  {
    match op {
      case PushOp(e) => PushStepGood(s, e);
      case DrainOp(k) =>
        DrainStepOrdered(s, k);
        DrainStepPartitioned(s, k);
    }
    GoodKnown(RunOp(s, op));
  }

  ghost function RunQueue(ops: seq<QueueOp>): (s: QueueRun)
    ensures Good(s) && Known(s)
  {
    if ops == [] then EMPTY_RUN
    else
      var n := |ops| - 1;
      var s := RunQueue(ops[..n]);
      StepGood(s, ops[n]);
      RunOp(s, ops[n])
  }

  ghost predicate InRange(pushed: seq<Envelope>, q: seq<nat>) {
    forall i :: 0 <= i < |q| ==> q[i] < |pushed|
  }

  /** The envelopes with the given arrival numbers. */
  ghost function Named(pushed: seq<Envelope>, q: seq<nat>): (r: seq<Envelope>)
    requires InRange(pushed, q)
    ensures |r| == |q| && forall i :: 0 <= i < |q| ==> r[i] == pushed[q[i]]
  {
    seq(|q|, i requires 0 <= i < |q| => pushed[q[i]])
  }

  lemma {:induction false} PickContents(pushed: seq<Envelope>, q: seq<nat>, k: Kind, yes: bool)
    requires InRange(pushed, q)
    ensures InRange(pushed, Pick(pushed, q, k, yes))
    ensures Named(pushed, Pick(pushed, q, k, yes)) == OfKind(Named(pushed, q), k, yes)
  {
    if q != [] {
      var n := |q| - 1;
      PickContents(pushed, q[..n], k, yes);
      var all, front := Named(pushed, q), Pick(pushed, q[..n], k, yes);
      assert all[..n] == Named(pushed, q[..n]);
      assert all[n] == pushed[q[n]];
      if (pushed[q[n]].kind == k) == yes {
        assert Named(pushed, front + [q[n]]) == Named(pushed, front) + [pushed[q[n]]];
      } else {
        assert Pick(pushed, q, k, yes) == front;
      }
    }
  }

  lemma PushNamed(s: QueueRun, e: Envelope)
    requires Known(s)
    ensures var t := RunOp(s, PushOp(e));
            InRange(t.pushed, t.queue) && Named(t.pushed, t.queue) == PushBounded(Named(s.pushed, s.queue), e)
  {
    var t := RunOp(s, PushOp(e));
    forall i | 0 <= i < |t.queue| ensures t.queue[i] < |t.pushed| {}
  }

  lemma DrainNamed(s: QueueRun, k: Kind)
    requires Known(s)
    ensures var t := RunOp(s, DrainOp(k));
            && InRange(t.pushed, t.queue) && Named(t.pushed, t.queue) == OfKind(Named(s.pushed, s.queue), k, false)
            && |t.drains| == |s.drains| + 1
            && InRange(t.pushed, t.drains[|s.drains|])
            && Named(t.pushed, t.drains[|s.drains|]) == OfKind(Named(s.pushed, s.queue), k, true)
  {
    PickContents(s.pushed, s.queue, k, false);
    PickContents(s.pushed, s.queue, k, true);
  }

  /** Over every interleaving this run is what the queue holds and what each drain returns,
      so the bound, the order and the partition are facts about the queue itself. */
  lemma QueueRunIsQueue(ops: seq<QueueOp>, op: QueueOp)
    ensures RunQueue(ops + [op]) == RunOp(RunQueue(ops), op)
    ensures var s, t := RunQueue(ops), RunQueue(ops + [op]);
            Named(t.pushed, t.queue) ==
              if op.PushOp? then PushBounded(Named(s.pushed, s.queue), op.e)
              else OfKind(Named(s.pushed, s.queue), op.want, false)
    ensures op.DrainOp? ==>
              var s, t := RunQueue(ops), RunQueue(ops + [op]);
              && |t.drains| == |s.drains| + 1
              && InRange(t.pushed, t.drains[|s.drains|])
              && Named(t.pushed, t.drains[|s.drains|]) == OfKind(Named(s.pushed, s.queue), op.want, true)
  {
    var s := RunQueue(ops);
    assert (ops + [op])[..|ops|] == ops;
    match op
    case PushOp(e) => PushNamed(s, e);
    case DrainOp(k) => DrainNamed(s, k);
  }
}
