/** The phase collectors: buffered envelopes first, then the live channel; the last message of
    the current cycle from each producer is kept, other kinds are buffered for later phases. */
module Collectors {
  import opened Binary
  import opened Sorting
  import opened Ledger
  import Majority
  import opened Network

  /** How a collector reads one kind of message. */
  datatype Reader<!M> = Reader(kind: Kind, read: Message -> Option<M>, idOf: M -> Id, cycleOf: M -> U64)

  function QuantityReader(): Reader<Quantity> {
    Reader(QuantityKind, (m: Message) => if m.QuantityMsg? then Some(m.quantity) else None,
           (q: Quantity) => q.producerId, (q: Quantity) => q.cycle)
  }

  function CandidateReader(): Reader<Candidate> {
    Reader(CandidateKind, (m: Message) => if m.CandidateMsg? then Some(m.candidate) else None,
           (c: Candidate) => c.producerId, (c: Candidate) => c.cycle)
  }

  function VoteReader(): Reader<Vote> {
    Reader(VoteKind, (m: Message) => if m.VoteMsg? then Some(m.vote) else None,
           (v: Vote) => v.producerId, (v: Vote) => v.cycle)
  }

  function OutputReader(): Reader<Output> {
    Reader(OutputKind, (m: Message) => if m.OutputMsg? then Some(m.output) else None,
           (o: Output) => o.producerId, (o: Output) => o.cycle)
  }

  function UpdateReader(): Reader<LsuBroadcast> {
    Reader(SyncKind, (m: Message) => if m.UpdateMsg? then Some(m.broadcast) else None,
           (b: LsuBroadcast) => b.producerId, (b: LsuBroadcast) => b.cycle)
  }

  /** What one envelope contributes: a readable body of the right kind and cycle. */
  function Admit<M>(r: Reader<M>, cycle: U64, e: Envelope): Option<M> {
    if e.kind != r.kind || e.body.None? then None
    else match r.read(e.body.value)
      case None => None
      case Some(m) => if r.cycleOf(m) == cycle then Some(m) else None
  }

  function Heard<M>(r: Reader<M>, cycle: U64, envelopes: seq<Envelope>): seq<M> {
    if envelopes == [] then []
    else
      var n := |envelopes| - 1;
      var front := Heard(r, cycle, envelopes[..n]);
      match Admit(r, cycle, envelopes[n])
      case None => front
      case Some(m) => front + [m]
  }

  function Latest<M>(ms: seq<M>, idOf: M -> Id): map<Id, M> {
    if ms == [] then map[]
    else var n := |ms| - 1; Latest(ms[..n], idOf)[idOf(ms[n]) := ms[n]]
  }

  function Collected<M>(r: Reader<M>, cycle: U64, envelopes: seq<Envelope>): map<Id, M> {
    Latest(Heard(r, cycle, envelopes), r.idOf)
  }

  function PushAll(q: seq<Envelope>, es: seq<Envelope>): seq<Envelope> {
    if es == [] then q else var n := |es| - 1; PushBounded(PushAll(q, es[..n]), es[n])
  }

  /** What the channel gives a collector before its deadline, if the node has a receiver at all. */
  datatype Inbound = NoReceiver | Yields(envelopes: seq<Envelope>)

  /** What a collector of the kind reads: the buffered envelopes first, then the live ones. */
  function Window(q: seq<Envelope>, k: Kind, inbound: Inbound): seq<Envelope> {
    match inbound case NoReceiver => [] case Yields(es) => OfKind(q, k, true) + es
  }

  /** What stays buffered after it has run. */
  function Left(q: seq<Envelope>, k: Kind, inbound: Inbound): seq<Envelope> {
    match inbound case NoReceiver => q case Yields(es) => PushAll(OfKind(q, k, false), OfKind(es, k, false))
  }

  function NeitherKind(es: seq<Envelope>, k: Kind, l: Kind): seq<Envelope> { OfKind(OfKind(es, k, false), l, false) }

  /** The same of a collector of two kinds. */
  function LeftByBoth(q: seq<Envelope>, k: Kind, l: Kind, inbound: Inbound): seq<Envelope> {
    match inbound case NoReceiver => q case Yields(es) => PushAll(NeitherKind(q, k, l), NeitherKind(es, k, l))
  }

  lemma CollectedStep<M>(r: Reader<M>, cycle: U64, envelopes: seq<Envelope>, e: Envelope)
    ensures Collected(r, cycle, envelopes + [e]) ==
              match Admit(r, cycle, e)
              case None => Collected(r, cycle, envelopes)
              case Some(m) => Collected(r, cycle, envelopes)[r.idOf(m) := m]
  {
    assert (envelopes + [e])[..|envelopes|] == envelopes;
    var front := Heard(r, cycle, envelopes);
    if Admit(r, cycle, e).Some? {
      var m := Admit(r, cycle, e).value;
      assert (front + [m])[..|front|] == front;
    }
  }

  /** One more envelope. */
  method ReadOne<M>(r: Reader<M>, cycle: U64, ghost seen: seq<Envelope>, e: Envelope, out: map<Id, M>)
    returns (next: map<Id, M>)
    requires out == Collected(r, cycle, seen)
    ensures next == Collected(r, cycle, seen + [e])
  {
    CollectedStep(r, cycle, seen, e);
    var m := Admit(r, cycle, e);
    next := if m.Some? then out[r.idOf(m.value) := m.value] else out;
  }

  method ReadAll<M>(r: Reader<M>, cycle: U64, envelopes: seq<Envelope>) returns (out: map<Id, M>)
    ensures out == Collected(r, cycle, envelopes)
  {
    out := map[];
    for i := 0 to |envelopes|
      invariant out == Collected(r, cycle, envelopes[..i])
    {
      assert envelopes[..i + 1] == envelopes[..i] + [envelopes[i]];
      out := ReadOne(r, cycle, envelopes[..i], envelopes[i], out);
    }
    assert envelopes[..|envelopes|] == envelopes;
  }

  lemma OfKindStep(s: seq<Envelope>, e: Envelope, k: Kind, yes: bool)
    ensures OfKind(s + [e], k, yes) == if (e.kind == k) == yes then OfKind(s, k, yes) + [e] else OfKind(s, k, yes)
  {
    assert (s + [e])[..|s|] == s;
  }

  lemma LeftStep(kept: seq<Envelope>, s: seq<Envelope>, e: Envelope, k: Kind)
    ensures PushAll(kept, OfKind(s + [e], k, false)) ==
              if e.kind == k then PushAll(kept, OfKind(s, k, false))
              else PushBounded(PushAll(kept, OfKind(s, k, false)), e)
  {
    OfKindStep(s, e, k, false);
    var others := OfKind(s, k, false);
    assert (others + [e])[..|others|] == others;
  }

  lemma OneMore(buffered: seq<Envelope>, inbound: seq<Envelope>, i: nat)
    requires i < |inbound|
    ensures inbound[..i + 1] == inbound[..i] + [inbound[i]]
    ensures buffered + inbound[..i + 1] == (buffered + inbound[..i]) + [inbound[i]]
  {}

  lemma AllOfIt(buffered: seq<Envelope>, inbound: seq<Envelope>)
    ensures buffered + inbound[..0] == buffered && inbound[..|inbound|] == inbound
  {}

  /** One collector over the buffered envelopes and what the channel yields before the deadline. */
  method Collect<M>(queue: PendingEnvelopes, r: Reader<M>, cycle: U64, inbound: Inbound) returns (out: map<Id, M>)
    modifies queue
    ensures out == Collected(r, cycle, Window(old(queue.pending), r.kind, inbound))
    ensures queue.pending == Left(old(queue.pending), r.kind, inbound)
  {
    if inbound.NoReceiver? { return map[]; }
    out := CollectLive(queue, r, cycle, inbound.envelopes);
  }

  method CollectLive<M>(queue: PendingEnvelopes, r: Reader<M>, cycle: U64, es: seq<Envelope>) returns (out: map<Id, M>)
    modifies queue
    ensures out == Collected(r, cycle, OfKind(old(queue.pending), r.kind, true) + es)
    ensures queue.pending == PushAll(OfKind(old(queue.pending), r.kind, false), OfKind(es, r.kind, false))
  {
    var drained := queue.DrainByKind(r.kind);
    ghost var kept := queue.pending;
    out := ReadAll(r, cycle, drained);
    AllOfIt(drained, es);
    for i := 0 to |es|
      invariant out == Collected(r, cycle, drained + es[..i])
      invariant queue.pending == PushAll(kept, OfKind(es[..i], r.kind, false))
    {
      OneMore(drained, es, i);
      LeftStep(kept, es[..i], es[i], r.kind);
      out := ReadOne(r, cycle, drained + es[..i], es[i], out);
      if es[i].kind != r.kind { queue.Push(es[i]); }
    }
  }

  lemma HeardStep<M>(r: Reader<M>, cycle: U64, envelopes: seq<Envelope>, e: Envelope)
    ensures Heard(r, cycle, envelopes + [e]) ==
              Heard(r, cycle, envelopes) + match Admit(r, cycle, e) case None => [] case Some(m) => [m]
  {
    assert (envelopes + [e])[..|envelopes|] == envelopes;
  }

  method HearOne<M>(r: Reader<M>, cycle: U64, ghost seen: seq<Envelope>, e: Envelope, out: seq<M>)
    returns (next: seq<M>)
    requires out == Heard(r, cycle, seen)
    ensures next == Heard(r, cycle, seen + [e])
  {
    HeardStep(r, cycle, seen, e);
    var m := Admit(r, cycle, e);
    next := if m.Some? then out + [m.value] else out;
  }

  method HearAll<M>(r: Reader<M>, cycle: U64, envelopes: seq<Envelope>) returns (out: seq<M>)
    ensures out == Heard(r, cycle, envelopes)
  {
    out := [];
    for i := 0 to |envelopes|
      invariant out == Heard(r, cycle, envelopes[..i])
    {
      assert envelopes[..i + 1] == envelopes[..i] + [envelopes[i]];
      out := HearOne(r, cycle, envelopes[..i], envelopes[i], out);
    }
    assert envelopes[..|envelopes|] == envelopes;
  }

  lemma NeitherStep(kept: seq<Envelope>, s: seq<Envelope>, e: Envelope, k: Kind, l: Kind)
    ensures PushAll(kept, NeitherKind(s + [e], k, l)) ==
              if e.kind == k || e.kind == l then PushAll(kept, NeitherKind(s, k, l))
              else PushBounded(PushAll(kept, NeitherKind(s, k, l)), e)
  {
    OfKindStep(s, e, k, false);
    if e.kind != k { LeftStep(kept, OfKind(s, k, false), e, l); }
  }

  /** Two kinds read in one loop: the last message per producer of one, all messages of the other. */
  method CollectBoth<A, B>(queue: PendingEnvelopes, ra: Reader<A>, rb: Reader<B>, cycle: U64, es: seq<Envelope>)
    returns (latest: map<Id, A>, all: seq<B>)
    modifies queue
    ensures latest == Collected(ra, cycle, OfKind(old(queue.pending), ra.kind, true) + es)
    ensures all == Heard(rb, cycle, OfKind(OfKind(old(queue.pending), ra.kind, false), rb.kind, true) + es)
    ensures queue.pending ==
              PushAll(NeitherKind(old(queue.pending), ra.kind, rb.kind), NeitherKind(es, ra.kind, rb.kind))
  {
    var first := queue.DrainByKind(ra.kind);
    latest := ReadAll(ra, cycle, first);
    var second := queue.DrainByKind(rb.kind);
    all := HearAll(rb, cycle, second);
    ghost var kept := queue.pending;
    AllOfIt(first, es);
    AllOfIt(second, es);
    for i := 0 to |es|
      invariant latest == Collected(ra, cycle, first + es[..i])
      invariant all == Heard(rb, cycle, second + es[..i])
      invariant queue.pending == PushAll(kept, NeitherKind(es[..i], ra.kind, rb.kind))
    {
      OneMore(first, es, i);
      OneMore(second, es, i);
      NeitherStep(kept, es[..i], es[i], ra.kind, rb.kind);
      latest := ReadOne(ra, cycle, first + es[..i], es[i], latest);
      all := HearOne(rb, cycle, second + es[..i], es[i], all);
      if es[i].kind != ra.kind && es[i].kind != rb.kind { queue.Push(es[i]); }
    }
  }

  /** The observer reads outputs and update broadcasts. */
  method CollectForObserver(queue: PendingEnvelopes, cycle: U64, inbound: Inbound)
    returns (outputs: map<Id, Output>, broadcasts: seq<LsuBroadcast>)
    modifies queue
    ensures outputs == Collected(OutputReader(), cycle, Window(old(queue.pending), OutputKind, inbound))
    ensures broadcasts ==
              Heard(UpdateReader(), cycle, Window(OfKind(old(queue.pending), OutputKind, false), SyncKind, inbound))
    ensures queue.pending == LeftByBoth(old(queue.pending), OutputKind, SyncKind, inbound)
  {
    if inbound.NoReceiver? { return map[], []; }
    outputs, broadcasts := CollectBoth(queue, OutputReader(), UpdateReader(), cycle, inbound.envelopes);
  }

  // ---------- one message per producer ----------

  lemma LatestStep<M>(ms: seq<M>, m: M, idOf: M -> Id)
    ensures Latest(ms + [m], idOf) == Latest(ms, idOf)[idOf(m) := m]
  {
    assert (ms + [m])[..|ms|] == ms;
  }

  ghost predicate Keyed<M>(c: map<Id, M>, idOf: M -> Id) { forall id :: id in c ==> idOf(c[id]) == id }

  /** The messages of a map along the given keys. */
  method Values<M>(c: map<Id, M>, idOf: M -> Id, keys: seq<Id>) returns (out: seq<M>)
    requires Keyed(c, idOf) && Elements(keys) == c.Keys
    ensures Latest(out, idOf) == c
    ensures |out| == |keys| && forall i :: 0 <= i < |keys| ==> idOf(out[i]) == keys[i]
  {
    out := [];
    assert forall k :: k in keys <==> k in Elements(keys);
    for i := 0 to |keys|
      invariant |out| == i && forall j :: 0 <= j < i ==> idOf(out[j]) == keys[j]
      invariant Latest(out, idOf) == Along(c, keys[..i])
    {
      assert keys[i] in c;
      AlongStep(c, keys, i);
      LatestStep(out, c[keys[i]], idOf);
      out := out + [c[keys[i]]];
    }
    assert keys[..|keys|] == keys;
    assert Along(c, keys) == c;
  }

  /** The part of a map under the listed keys. */
  ghost function Along<M>(c: map<Id, M>, keys: seq<Id>): map<Id, M> { map id | id in c && id in keys :: c[id] }

  lemma AlongStep<M>(c: map<Id, M>, keys: seq<Id>, i: nat)
    requires i < |keys| && keys[i] in c
    ensures Along(c, keys[..i + 1]) == Along(c, keys[..i])[keys[i] := c[keys[i]]]
  {
    assert keys[..i + 1] == keys[..i] + [keys[i]];
  }

  lemma {:induction false} LatestKeyed<M>(ms: seq<M>, idOf: M -> Id)
    ensures Keyed(Latest(ms, idOf), idOf)
  {
    if ms != [] { LatestKeyed(ms[..|ms| - 1], idOf); }
  }

  /** Keeps the last message of each producer, in the order of the ids. */
  method DedupByProducer<M>(ms: seq<M>, idOf: M -> Id) returns (out: seq<M>, ghost ids: seq<Id>)
    ensures Latest(out, idOf) == Latest(ms, idOf)
    ensures StrictlyIncreasing(ids) && |ids| == |out| && forall i :: 0 <= i < |ids| ==> idOf(out[i]) == ids[i]
  {
    var byId: map<Id, M> := map[];
    for i := 0 to |ms|
      invariant byId == Latest(ms[..i], idOf)
    {
      assert ms[..i + 1] == ms[..i] + [ms[i]];
      LatestStep(ms[..i], ms[i], idOf);
      byId := byId[idOf(ms[i]) := ms[i]];
    }
    assert ms[..|ms|] == ms;
    LatestKeyed(ms, idOf);
    var keys := Majority.SortedKeys(byId.Keys);
    out := Values(byId, idOf, keys);
    ids := keys;
  }

  /** The collected messages and the producer's own, which comes last and so replaces any other
      in its name. */
  method WithOwn<M>(c: map<Id, M>, idOf: M -> Id, own: M) returns (out: seq<M>)
    requires Keyed(c, idOf)
    ensures Latest(out, idOf) == c[idOf(own) := own]
  {
    var keys := Majority.SortedKeys(c.Keys);
    var collected := Values(c, idOf, keys);
    LatestStep(collected, own, idOf);
    ghost var ids;
    out, ids := DedupByProducer(collected + [own], idOf);
  }

  lemma CollectedKeyed<M>(r: Reader<M>, cycle: U64, envelopes: seq<Envelope>)
    ensures Keyed(Collected(r, cycle, envelopes), r.idOf)
  {
    LatestKeyed(Heard(r, cycle, envelopes), r.idOf);
  }

  // ---------- what a collector yields ----------

  lemma {:induction false} HeardSound<M>(r: Reader<M>, cycle: U64, envelopes: seq<Envelope>, m: M)
    requires m in Heard(r, cycle, envelopes)
    ensures exists e :: e in envelopes && Admit(r, cycle, e) == Some(m)
  {
    var n := |envelopes| - 1;
    if Admit(r, cycle, envelopes[n]) == Some(m) {
      assert envelopes[n] in envelopes;
    } else {
      HeardSound(r, cycle, envelopes[..n], m);
      var e :| e in envelopes[..n] && Admit(r, cycle, e) == Some(m);
      assert e in envelopes;
    }
  }

  lemma {:induction false} LatestSound<M>(ms: seq<M>, idOf: M -> Id, id: Id)
    ensures id in Latest(ms, idOf) ==> Latest(ms, idOf)[id] in ms && idOf(Latest(ms, idOf)[id]) == id
    ensures id in Latest(ms, idOf) <==> exists m :: m in ms && idOf(m) == id
  {
    if ms != [] {
      var n := |ms| - 1;
      LatestSound(ms[..n], idOf, id);
      assert ms == ms[..n] + [ms[n]];
    }
  }

  /** A collected message is one per producer, of this cycle, and read from some envelope. */
  lemma CollectedSound<M>(r: Reader<M>, cycle: U64, envelopes: seq<Envelope>, id: Id)
    requires id in Collected(r, cycle, envelopes)
    ensures var m := Collected(r, cycle, envelopes)[id];
            r.idOf(m) == id && r.cycleOf(m) == cycle && exists e :: e in envelopes && Admit(r, cycle, e) == Some(m)
  {
    var ms := Heard(r, cycle, envelopes);
    LatestSound(ms, r.idOf, id);
    HeardSound(r, cycle, envelopes, Collected(r, cycle, envelopes)[id]);
  }

  /** A producer heard in this cycle is collected. */
  lemma {:induction false} CollectedComplete<M>(r: Reader<M>, cycle: U64, envelopes: seq<Envelope>, e: Envelope, m: M)
    requires e in envelopes && Admit(r, cycle, e) == Some(m)
    ensures r.idOf(m) in Collected(r, cycle, envelopes)
  {
    var n := |envelopes| - 1;
    assert envelopes == envelopes[..n] + [envelopes[n]];
    CollectedStep(r, cycle, envelopes[..n], envelopes[n]);
    if e in envelopes[..n] { CollectedComplete(r, cycle, envelopes[..n], e, m); }
  }

  /** It is the last one that producer said. */
  lemma {:induction false} CollectedIsLast<M>(r: Reader<M>, cycle: U64, envelopes: seq<Envelope>, id: Id)
    requires id in Collected(r, cycle, envelopes)
    ensures exists i :: IsLast(r, cycle, envelopes, id, i) &&
                        Admit(r, cycle, envelopes[i]) == Some(Collected(r, cycle, envelopes)[id])
    decreases |envelopes|
  {
    var n := |envelopes| - 1;
    var front, e := envelopes[..n], envelopes[n];
    assert envelopes == front + [e];
    CollectedStep(r, cycle, front, e);
    var m := Admit(r, cycle, e);
    if m.Some? && r.idOf(m.value) == id {
      assert IsLast(r, cycle, envelopes, id, n);
    } else {
      CollectedIsLast(r, cycle, front, id);
      var i :| IsLast(r, cycle, front, id, i) && Admit(r, cycle, front[i]) == Some(Collected(r, cycle, front)[id]);
      assert IsLast(r, cycle, envelopes, id, i);
    }
  }

  /** The last readable message of the producer is at index `i`. */
  ghost predicate IsLast<M>(r: Reader<M>, cycle: U64, envelopes: seq<Envelope>, id: Id, i: int) {
    0 <= i < |envelopes| && forall j :: i < j < |envelopes| ==>
      match Admit(r, cycle, envelopes[j]) case None => true case Some(m) => r.idOf(m) != id
  }

  // ---------- nothing that arrived early is lost ----------

  lemma {:induction false} HeardConcat<M>(r: Reader<M>, cycle: U64, a: seq<Envelope>, b: seq<Envelope>)
    ensures Heard(r, cycle, a + b) == Heard(r, cycle, a) + Heard(r, cycle, b)
    decreases |b|
  {
    if b == [] {
      assert a + b == a;
    } else {
      var n := |b| - 1;
      assert a + b == (a + b[..n]) + [b[n]];
      HeardStep(r, cycle, a + b[..n], b[n]);
      HeardConcat(r, cycle, a, b[..n]);
    }
  }

  /** Sorting out other kinds does not change what a collector reads. */
  lemma {:induction false} HeardOfKind<M>(r: Reader<M>, cycle: U64, q: seq<Envelope>, k: Kind, yes: bool)
    requires (r.kind == k) == yes
    ensures Heard(r, cycle, OfKind(q, k, yes)) == Heard(r, cycle, q)
    decreases |q|
  {
    if q != [] {
      var n := |q| - 1;
      HeardOfKind(r, cycle, q[..n], k, yes);
      if (q[n].kind == k) == yes {
        HeardStep(r, cycle, OfKind(q[..n], k, yes), q[n]);
      } else {
        assert OfKind(q, k, yes) == OfKind(q[..n], k, yes);
      }
    }
  }

  /** A collector reads what was buffered and then what comes in, all of it, in order of arrival. */
  lemma WindowHearsAll<M>(r: Reader<M>, cycle: U64, q: seq<Envelope>, es: seq<Envelope>)
    ensures Heard(r, cycle, Window(q, r.kind, Yields(es))) == Heard(r, cycle, q + es)
    ensures Collected(r, cycle, Window(q, r.kind, Yields(es))) == Collected(r, cycle, q + es)
  {
    HeardConcat(r, cycle, OfKind(q, r.kind, true), es);
    HeardConcat(r, cycle, q, es);
    HeardOfKind(r, cycle, q, r.kind, true);
  }

  /** The observer reads the broadcasts in the same way, after the outputs were taken out. */
  lemma SecondWindowHearsAll<M>(r: Reader<M>, cycle: U64, q: seq<Envelope>, k: Kind, es: seq<Envelope>)
    requires r.kind != k
    ensures Heard(r, cycle, Window(OfKind(q, k, false), r.kind, Yields(es))) == Heard(r, cycle, q + es)
  {
    WindowHearsAll(r, cycle, OfKind(q, k, false), es);
    HeardConcat(r, cycle, OfKind(q, k, false), es);
    HeardConcat(r, cycle, q, es);
    HeardOfKind(r, cycle, q, k, false);
  }

  /** So a message buffered before the phase counts, and the last one of its producer is kept. */
  lemma BufferedAreCollected<M>(r: Reader<M>, cycle: U64, q: seq<Envelope>, es: seq<Envelope>, e: Envelope, m: M)
    requires e in q && Admit(r, cycle, e) == Some(m)
    ensures var c := Collected(r, cycle, Window(q, r.kind, Yields(es)));
            && r.idOf(m) in c
            && exists i :: IsLast(r, cycle, q + es, r.idOf(m), i) && Admit(r, cycle, (q + es)[i]) == Some(c[r.idOf(m)])
  {
    WindowHearsAll(r, cycle, q, es);
    assert e in q + es;
    CollectedComplete(r, cycle, q + es, e, m);
    CollectedIsLast(r, cycle, q + es, r.idOf(m));
  }

  /** The newest `n`. */
  function Newest(s: seq<Envelope>, n: nat): seq<Envelope> { if |s| <= n then s else s[|s| - n..] }

  /** Of everything put into the buffer the newest ten thousand are kept. */
  lemma {:induction false} PushAllKeepsNewest(q: seq<Envelope>, es: seq<Envelope>)
    requires |q| <= 10_000
    ensures PushAll(q, es) == Newest(q + es, 10_000)
    decreases |es|
  {
    if es == [] {
      assert q + es == q;
    } else {
      var n := |es| - 1;
      PushAllKeepsNewest(q, es[..n]);
      assert q + es == (q + es[..n]) + [es[n]];
    }
  }

  /** What a collector of one kind leaves for the others is all they have to read so far. */
  lemma LeftForOthers<M>(r: Reader<M>, cycle: U64, q: seq<Envelope>, k: Kind, es: seq<Envelope>)
    requires r.kind != k && |q| + |es| <= 10_000
    ensures var left := Left(q, k, Yields(es));
            Heard(r, cycle, left) == Heard(r, cycle, q + es) && |left| <= |q| + |es|
  {
    PushAllKeepsNewest(OfKind(q, k, false), OfKind(es, k, false));
    HeardConcat(r, cycle, OfKind(q, k, false), OfKind(es, k, false));
    HeardConcat(r, cycle, q, es);
    HeardOfKind(r, cycle, q, k, false);
    HeardOfKind(r, cycle, es, k, false);
  }

  /** The same of what the observer leaves. */
  lemma LeftByObserver<M>(r: Reader<M>, cycle: U64, q: seq<Envelope>, k: Kind, l: Kind, es: seq<Envelope>)
    requires r.kind != k && r.kind != l && |q| + |es| <= 10_000
    ensures Heard(r, cycle, LeftByBoth(q, k, l, Yields(es))) == Heard(r, cycle, q + es)
  {
    PushAllKeepsNewest(NeitherKind(q, k, l), NeitherKind(es, k, l));
    HeardConcat(r, cycle, NeitherKind(q, k, l), NeitherKind(es, k, l));
    HeardConcat(r, cycle, q, es);
    HeardOfKind(r, cycle, OfKind(q, k, false), l, false);
    HeardOfKind(r, cycle, q, k, false);
    HeardOfKind(r, cycle, OfKind(es, k, false), l, false);
    HeardOfKind(r, cycle, es, k, false);
  }
}
