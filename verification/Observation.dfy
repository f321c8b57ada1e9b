/** What an observer's update rests on, over all runs, with the exact number of faulty ids each
    guarantee survives. */
module Observation {
  import opened Binary
  import opened Merkle
  import opened Ledger
  import Majority
  import opened Phases
  import opened Network
  import opened Collectors
  import opened Observer
  import opened Protocol
  import opened Safety
  import opened Preservation
  import opened Agreement
  import opened Progress
  import opened Exactness

  ghost function Needed(cfg: Config, cycle: U64): nat { ObserverRequired(cfg.committee(cycle)) }

  ghost predicate SamePrefix(cfg: Config, x: LedgerUpdate, y: LedgerUpdate) {
    UpdateHash(cfg.env, x)[..20] == UpdateHash(cfg.env, y)[..20]
  }

  ghost predicate NoPrefixCollision(H: HashFn, x: Octets, y: Octets) { H(x)[..20] == H(y)[..20] ==> x == y }

  /** Observers compare 20 of the 32 bytes; without a collision there the updates are equal. */
  lemma SamePrefixSameUpdate(cfg: Config, x: LedgerUpdate, y: LedgerUpdate)
    requires SamePrefix(cfg, x, y) && NoPrefixCollision(cfg.env.hash, EncUpdate(x), EncUpdate(y)) && Encodable(x) &&
               Encodable(y)
    ensures x == y
  {
    UpdateBytesInjective(x, y);
  }

  lemma NeededIsQuorum(cfg: Config, cycle: U64)
    ensures Needed(cfg, cycle) >= Quorum(cfg, cycle)
  {
    CommitteeSize(cfg.committee(cycle));
    if cfg.committee(cycle) == [] { assert Members(cfg, cycle) == {}; }
  }

  lemma SameAddress(h: Hash, k: Hash)
    requires AddressOf(h) == AddressOf(k)
    ensures h[..20] == k[..20]
  {
    assert AddressOf(h)[1..] == h[..20] && AddressOf(k)[1..] == k[..20];
  }

  // ---------- what holds ----------

  /** The honest ones among those that published an observed update's address. */
  ghost function Backers(cfg: Config, s: System, o: Sighting): set<Id> {
    Publishers(s.sent, o.cycle, AddressOf(UpdateHash(cfg.env, o.lsu))) - cfg.faulty
  }

  lemma BackersReturned(cfg: Config, s: System, o: Sighting, id: Id)
    requires Inv(cfg, s) && AllPlanned(cfg, s) && id in Backers(cfg, s, o)
    ensures Entered(cfg, s, id, o.cycle)
    ensures var f := Result(id, o.cycle, s.started[(id, o.cycle)].lsu); f in s.finished && SamePrefix(cfg, f.lsu, o.lsu)
    ensures s.started[(id, o.cycle)].lsuHash[..20] == UpdateHash(cfg.env, o.lsu)[..20]
  {
    var m :| m in s.sent && m.OutputMsg? && m.output.cycle == o.cycle &&
             m.output.address == AddressOf(UpdateHash(cfg.env, o.lsu)) && m.output.producerId == id;
    assert Published(cfg, s, m);
    var plan := s.started[(id, o.cycle)];
    SameAddress(plan.lsuHash, UpdateHash(cfg.env, o.lsu));
    PlanHash(cfg, s, Result(id, o.cycle, plan.lsu));
  }

  lemma EnoughBackers(cfg: Config, s: System, o: Sighting)
    requires Inv(cfg, s) && AllPlanned(cfg, s) && o in s.observed
    ensures Backers(cfg, s, o) <= Honest(cfg, o.cycle)
    ensures |Backers(cfg, s, o)| >= Needed(cfg, o.cycle) - |cfg.faulty|
  {
    assert Sighted(cfg, s, o);
    HonestAmong(Publishers(s.sent, o.cycle, AddressOf(UpdateHash(cfg.env, o.lsu))), cfg.faulty);
    forall id | id in Backers(cfg, s, o) ensures id in Honest(cfg, o.cycle) { BackersReturned(cfg, s, o, id); }
  }

  /** Some producer of the cycle returned the observed update. */
  ghost predicate Backed(cfg: Config, s: System, o: Sighting) {
    exists f :: f in s.finished && f.cycle == o.cycle && SamePrefix(cfg, f.lsu, o.lsu)
  }

  lemma ObserverAgrees(cfg: Config, actions: seq<Action>, o: Sighting)
    requires o in Run(cfg, actions).observed && |cfg.faulty| < Needed(cfg, o.cycle)
    ensures Backed(cfg, Run(cfg, actions), o)
  {
    var s := Run(cfg, actions);
    RunKeeps(cfg, actions);
    EnoughBackers(cfg, s, o);
    var id :| id in Backers(cfg, s, o);
    BackersReturned(cfg, s, o, id);
    var f := Result(id, o.cycle, s.started[(id, o.cycle)].lsu);
    assert f in s.finished && SamePrefix(cfg, f.lsu, o.lsu);
  }

  /** Two subsets too large to be disjoint. */
  lemma MustMeet(a: set<Id>, b: set<Id>, all: set<Id>) returns (id: Id)
    requires a <= all && b <= all && |a| + |b| > |all|
    ensures id in a && id in b
  {
    Overlap(a, b);
    Majority.Subset(a + b, all);
    id :| id in a * b;
  }

  lemma VoterCount(cfg: Config, cycle: U64)
    ensures |Members(cfg, cycle) + cfg.faulty| == |Honest(cfg, cycle)| + |cfg.faulty|
  {
    assert Members(cfg, cycle) + cfg.faulty == Honest(cfg, cycle) + cfg.faulty;
  }

  ghost predicate ObserversMeet(cfg: Config, cycle: U64) {
    |Members(cfg, cycle) + cfg.faulty| + |cfg.faulty| < 2 * Needed(cfg, cycle)
  }

  lemma ObserversAgree(cfg: Config, actions: seq<Action>, o: Sighting, p: Sighting)
    requires o in Run(cfg, actions).observed && p in Run(cfg, actions).observed && o.cycle == p.cycle
    requires ObserversMeet(cfg, o.cycle)
    ensures SamePrefix(cfg, o.lsu, p.lsu)
  {
    var s := Run(cfg, actions);
    RunKeeps(cfg, actions);
    EnoughBackers(cfg, s, o);
    EnoughBackers(cfg, s, p);
    VoterCount(cfg, o.cycle);
    var id := MustMeet(Backers(cfg, s, o), Backers(cfg, s, p), Honest(cfg, o.cycle));
    BackersReturned(cfg, s, o, id);
    BackersReturned(cfg, s, p, id);
  }

  /** Too few honest members for a producer's side and an observer's side apart from each other. */
  ghost predicate ObserverMeetsProducers(cfg: Config, cycle: U64) {
    Max(1, Quorum(cfg, cycle) - |cfg.faulty|) + Max(0, Needed(cfg, cycle) - |cfg.faulty|) > |Honest(cfg, cycle)|
  }

  /** The honest members whose plan has the hash of a returned update. */
  ghost function Supporting(cfg: Config, s: System, g: Result, h: Hash): set<Id> {
    (Reporters(s.sent, Third, g.cycle, h) - cfg.faulty) + {g.id}
  }

  ghost predicate Planned(cfg: Config, s: System, id: Id, cycle: U64, h: Hash) {
    Entered(cfg, s, id, cycle) && s.started[(id, cycle)].lsuHash == h
  }

  lemma SupportingPlans(cfg: Config, s: System, g: Result, h: Hash, id: Id)
    requires Inv(cfg, s) && Planned(cfg, s, g.id, g.cycle, h) && id in Supporting(cfg, s, g, h)
    ensures Planned(cfg, s, id, g.cycle, h)
  {
    if id != g.id {
      ReportersAreVoters(cfg, s, Third, g.cycle, h);
      assert Justified(cfg, s, Report(Third, g.cycle, id, h));
    }
  }

  lemma EnoughSupport(cfg: Config, s: System, g: Result, h: Hash)
    requires Inv(cfg, s) && Planned(cfg, s, g.id, g.cycle, h) && g in s.finished
    ensures Supporting(cfg, s, g, h) <= Honest(cfg, g.cycle)
    ensures |Supporting(cfg, s, g, h)| >= Max(1, Quorum(cfg, g.cycle) - |cfg.faulty|)
  {
    assert Finished(cfg, s, g);
    var reporters := Reporters(s.sent, Third, g.cycle, h);
    LargeUnion(reporters, cfg.faulty, g.id);
    forall id | id in Supporting(cfg, s, g, h) ensures id in Honest(cfg, g.cycle) { SupportingPlans(cfg, s, g, h, id); }
  }

  lemma LargeUnion(reporters: set<Id>, faulty: set<Id>, id: Id)
    ensures |(reporters - faulty) + {id}| >= Max(1, |reporters| - |faulty|)
  {
    HonestAmong(reporters, faulty);
    Majority.Subset(reporters - faulty, (reporters - faulty) + {id});
    Majority.Subset({id}, (reporters - faulty) + {id});
  }

  lemma ObserverMatchesProducers(cfg: Config, actions: seq<Action>, o: Sighting, g: Result)
    requires o in Run(cfg, actions).observed && g in Run(cfg, actions).finished && g.cycle == o.cycle
    requires ObserverMeetsProducers(cfg, o.cycle)
    ensures SamePrefix(cfg, o.lsu, g.lsu)
  {
    var s, h := Run(cfg, actions), UpdateHash(cfg.env, g.lsu);
    RunKeeps(cfg, actions);
    PlanHash(cfg, s, g);
    EnoughBackers(cfg, s, o);
    EnoughSupport(cfg, s, g, h);
    var id := MustMeet(Backers(cfg, s, o), Supporting(cfg, s, g, h), Honest(cfg, o.cycle));
    BackersReturned(cfg, s, o, id);
    SupportingPlans(cfg, s, g, h, id);
  }

  /** The bound under which producers agree covers observers too. */
  lemma IntersectingSuffices(cfg: Config, cycle: U64)
    requires Intersecting(cfg, cycle)
    ensures |cfg.faulty| < Needed(cfg, cycle) && ObserversMeet(cfg, cycle) && ObserverMeetsProducers(cfg, cycle)
  {
    NeededIsQuorum(cfg, cycle);
    FaultyBelowQuorum(cfg, cycle);
    VoterCount(cfg, cycle);
  }

  // ---------- runs that show the bounds are exact ----------

  lemma {:induction false} ClaimOutputs(cfg: Config, s: System, ids: set<Id>, cycle: U64, address: Address)
    returns (t: System)
    requires Reachable(cfg, s) && ids <= cfg.faulty
    ensures Reachable(cfg, t) && Grows(s, t) && t.started == s.started && t.finished == s.finished &&
              t.observed == s.observed
    ensures ids <= Publishers(t.sent, cycle, address)
    decreases ids
  {
    t := s;
    if ids != {} {
      var id :| id in ids;
      var m := OutputMsg(Output(address, ZERO_HASH, cycle, id, 0));
      var s1 := Step(cfg, s, Inject(m));
      ReachableStep(cfg, s, Inject(m));
      t := ClaimOutputs(cfg, s1, ids - {id}, cycle, address);
      assert m in t.sent;
    }
  }

  ghost function OutputsOf(sent: set<Message>, cycle: U64, address: Octets): seq<Envelope> {
    Wrap(OutputKind, set m | m in sent && m.OutputMsg? && m.output.cycle == cycle && m.output.address == address)
  }

  lemma OutputsHeard(sent: set<Message>, cycle: U64, address: Octets)
    ensures var c := Collected(OutputReader(), cycle, OutputsOf(sent, cycle, address));
            c.Keys == Publishers(sent, cycle, address) && forall id :: id in c ==> c[id].address == address
  {
    var heard := OutputsOf(sent, cycle, address);
    var c := Collected(OutputReader(), cycle, heard);
    forall id | id in c ensures id in Publishers(sent, cycle, address) && c[id].address == address {
      CollectedSound(OutputReader(), cycle, heard, id);
    }
    forall m | m in sent && m.OutputMsg? && m.output.cycle == cycle && m.output.address == address
      ensures m.output.producerId in c
    {
      CollectedComplete(OutputReader(), cycle, heard, Envelope(OutputKind, Some(m)), m.output);
    }
  }

  lemma UnanimousAddress(c: Majority.Reports, required: nat, a: Octets)
    requires 0 < required <= |c| && forall id :: id in c ==> c[id] == a
    ensures AgreedAddress(c, required) == Some(a)
  {
    assert Majority.Supporters(c, a) == c.Keys;
    assert |c.Keys| == |c|;
    var id :| id in c;
    assert a in c.Values;
    LeqTotal(a, a);
    assert IsFirstQuorate(c, required, a);
    FirstQuorateUnique(c, required, a);
  }

  lemma UpdateHeard(b: LsuBroadcast)
    ensures Heard(UpdateReader(), b.cycle, [Envelope(SyncKind, Some(UpdateMsg(b)))]) == [b]
  {
    var e := Envelope(SyncKind, Some(UpdateMsg(b)));
    assert [e][..0] == [];
  }

  lemma SightingPossible(cfg: Config, sent: set<Message>, b: LsuBroadcast)
    requires |Publishers(sent, b.cycle, AddressOf(UpdateHash(cfg.env, b.lsu)))| >= Needed(cfg, b.cycle)
    ensures var a := AddressOf(UpdateHash(cfg.env, b.lsu));
            Observed(cfg.env, cfg.committee(b.cycle), b.cycle, OutputsOf(sent, b.cycle, a),
                     [Envelope(SyncKind, Some(UpdateMsg(b)))]) == Some(b.lsu)
  {
    var h := UpdateHash(cfg.env, b.lsu);
    var a := AddressOf(h);
    OutputsHeard(sent, b.cycle, a);
    var outputs := Collected(OutputReader(), b.cycle, OutputsOf(sent, b.cycle, a));
    assert Addresses(outputs).Keys == outputs.Keys;
    UnanimousAddress(Addresses(outputs), Needed(cfg, b.cycle), a);
    UpdateHeard(b);
    assert a[..1] == [1] && a[1..] == h[..20];
  }

  lemma ObserveSees(cfg: Config, s: System, cycle: U64, outputs: seq<Envelope>, updates: seq<Envelope>,
                    lsu: LedgerUpdate)
    requires Observed(cfg.env, cfg.committee(cycle), cycle, outputs, updates) == Some(lsu)
    ensures ObserveStep(cfg, s, cycle, outputs, updates) == s.(observed := s.observed + {Sighting(cycle, lsu)})
  {}

  /** Enough published outputs and one broadcast let an observer take the update. */
  lemma ObserveOne(cfg: Config, s: System, b: LsuBroadcast) returns (t: System)
    requires Reachable(cfg, s) && UpdateMsg(b) in s.sent
    requires |Publishers(s.sent, b.cycle, AddressOf(UpdateHash(cfg.env, b.lsu)))| >= Needed(cfg, b.cycle)
    ensures Reachable(cfg, t) && t == s.(observed := s.observed + {Sighting(b.cycle, b.lsu)})
  {
    SightingPossible(cfg, s.sent, b);
    var outputs := OutputsOf(s.sent, b.cycle, AddressOf(UpdateHash(cfg.env, b.lsu)));
    var update := [Envelope(SyncKind, Some(UpdateMsg(b)))];
    ReachableStep(cfg, s, Observing(b.cycle, outputs, update));
    ObserveSees(cfg, s, b.cycle, outputs, update, b.lsu);
    t := s.(observed := s.observed + {Sighting(b.cycle, b.lsu)});
    ObserveTaken(cfg, s, Observing(b.cycle, outputs, update), t);
  }

  /** The faulty ids add their outputs to those of `ids`, which is enough for an observer. */
  lemma ObservedWith(cfg: Config, s: System, ids: set<Id>, b: LsuBroadcast) returns (t: System)
    requires Reachable(cfg, s) && UpdateMsg(b) in s.sent
    requires ids <= Publishers(s.sent, b.cycle, AddressOf(UpdateHash(cfg.env, b.lsu)))
    requires ids !! cfg.faulty && |ids| + |cfg.faulty| >= Needed(cfg, b.cycle)
    ensures Reachable(cfg, t) && Grows(s, t) && t.started == s.started && t.finished == s.finished
    ensures t.observed == s.observed + {Sighting(b.cycle, b.lsu)}
  {
    var address := AddressOf(UpdateHash(cfg.env, b.lsu));
    var s1 := ClaimOutputs(cfg, s, cfg.faulty, b.cycle, address);
    var publishers := Publishers(s1.sent, b.cycle, address);
    assert ids <= publishers;
    Majority.Subset(ids + cfg.faulty, publishers);
    t := ObserveOne(cfg, s1, b);
  }

  /** The update of a batch is out, and `ids` have published its address. */
  ghost predicate Out(cfg: Config, s: System, ids: set<Id>, cycle: U64, batch: seq<TransactionEntry>, b: LsuBroadcast) {
    && b.lsu == PlanOf(cfg, cycle, batch).lsu && b.cycle == cycle && UpdateMsg(b) in s.sent
    && ids <= Publishers(s.sent, cycle, AddressOf(UpdateHash(cfg.env, b.lsu)))
  }

  lemma InjectTaken(cfg: Config, s: System, m: Message)
    requires Reachable(cfg, s) && Sender(m) in cfg.faulty
    ensures Reachable(cfg, s.(sent := s.sent + {m}))
  {
    ReachableStep(cfg, s, Inject(m));
  }

  /** A faulty id broadcasts the update of a batch nobody worked on. */
  lemma LiarPublishes(cfg: Config, s: System, cycle: U64, batch: seq<TransactionEntry>)
    returns (t: System, b: LsuBroadcast)
    requires Reachable(cfg, s) && cfg.faulty != {}
    ensures Reachable(cfg, t) && Grows(s, t) && Out(cfg, t, {}, cycle, batch, b)
    ensures t.started == s.started && t.finished == s.finished
  {
    var liar :| liar in cfg.faulty;
    b := LsuBroadcast(PlanOf(cfg, cycle, batch).lsu, cycle, liar);
    InjectTaken(cfg, s, UpdateMsg(b));
    t := s.(sent := s.sent + {UpdateMsg(b)});
  }

  lemma PlanHashes(cfg: Config, cycle: U64, batch: seq<TransactionEntry>)
    ensures PlanOf(cfg, cycle, batch).lsuHash == UpdateHash(cfg.env, PlanOf(cfg, cycle, batch).lsu)
  {}

  lemma MembersPublish(cfg: Config, s: System, ids: set<Id>, cycle: U64, batch: seq<TransactionEntry>)
    returns (t: System, b: LsuBroadcast)
    requires Reachable(cfg, s) && ids <= Honest(cfg, cycle) && ids != {} && |ids| + |cfg.faulty| >= Quorum(cfg, cycle)
    requires forall id :: id in ids ==> (id, cycle) !in s.started
    ensures Reachable(cfg, t) && Grows(s, t) && Out(cfg, t, ids, cycle, batch, b)
    ensures forall k :: k in t.started ==> k in s.started || k.0 in ids
  {
    t := SideFinishes(cfg, s, ids, cycle, batch);
    var id :| id in ids;
    var plan := PlanOf(cfg, cycle, batch);
    b := LsuBroadcast(plan.lsu, cycle, id);
    PlanHashes(cfg, cycle, batch);
    CompletedIsOut(t, ids, cycle, plan, id);
  }

  lemma CompletedIsOut(s: System, ids: set<Id>, cycle: U64, plan: Plan, id: Id)
    requires id in ids && forall x :: x in ids ==> Completed(s, x, cycle, plan)
    ensures UpdateMsg(LsuBroadcast(plan.lsu, cycle, id)) in s.sent
    ensures ids <= Publishers(s.sent, cycle, AddressOf(plan.lsuHash))
  {}

  lemma SidePublishes(cfg: Config, s: System, ids: set<Id>, cycle: U64, batch: seq<TransactionEntry>)
    returns (t: System, b: LsuBroadcast)
    requires Reachable(cfg, s) && ids <= Honest(cfg, cycle) && |ids| + |cfg.faulty| >= Needed(cfg, cycle)
    requires forall id :: id in ids ==> (id, cycle) !in s.started
    ensures Reachable(cfg, t) && Grows(s, t) && Out(cfg, t, ids, cycle, batch, b)
    ensures forall k :: k in t.started ==> k in s.started || k.0 in ids
  {
    if ids == {} {
      t, b := LiarPublishes(cfg, s, cycle, batch);
    } else {
      NeededIsQuorum(cfg, cycle);
      t, b := MembersPublish(cfg, s, ids, cycle, batch);
    }
  }

  lemma OutStays(cfg: Config, s: System, t: System, ids: set<Id>, cycle: U64, batch: seq<TransactionEntry>,
                 b: LsuBroadcast)
    requires Out(cfg, s, ids, cycle, batch, b) && Grows(s, t)
    ensures Out(cfg, t, ids, cycle, batch, b)
  {}

  lemma TakeApart(all: set<Id>, m: nat, n: nat) returns (left: set<Id>, right: set<Id>)
    requires m + n <= |all|
    ensures left <= all && right <= all && left !! right && |left| == m && |right| == n
  {
    left := TakeSubset(all, m);
    assert all == left + (all - left);
    right := TakeSubset(all - left, n);
  }

  lemma ObserversPart(cfg: Config, cycle: U64, a: seq<TransactionEntry>, b: seq<TransactionEntry>)
    returns (actions: seq<Action>)
    requires !ObserversMeet(cfg, cycle)
    ensures Sighting(cycle, PlanOf(cfg, cycle, a).lsu) in Run(cfg, actions).observed
    ensures Sighting(cycle, PlanOf(cfg, cycle, b).lsu) in Run(cfg, actions).observed
  {
    VoterCount(cfg, cycle);
    var side := Max(0, Needed(cfg, cycle) - |cfg.faulty|);
    var left, right := TakeApart(Honest(cfg, cycle), side, side);
    assert Run(cfg, []) == INITIAL;
    var s1, x := SidePublishes(cfg, INITIAL, left, cycle, a);
    var s2, y := SidePublishes(cfg, s1, right, cycle, b);
    OutStays(cfg, s1, s2, left, cycle, a, x);
    var s3 := ObservedWith(cfg, s2, left, x);
    OutStays(cfg, s2, s3, right, cycle, b, y);
    var s4 := ObservedWith(cfg, s3, right, y);
    actions :| Run(cfg, actions) == s4;
  }

  lemma ObserverParts(cfg: Config, cycle: U64, a: seq<TransactionEntry>, b: seq<TransactionEntry>)
    returns (actions: seq<Action>, g: Result)
    requires !ObserverMeetsProducers(cfg, cycle)
    ensures g in Run(cfg, actions).finished && g.cycle == cycle && g.lsu == PlanOf(cfg, cycle, a).lsu
    ensures Sighting(cycle, PlanOf(cfg, cycle, b).lsu) in Run(cfg, actions).observed
  {
    var left, right := TakeApart(Honest(cfg, cycle), Max(1, Quorum(cfg, cycle) - |cfg.faulty|),
                                 Max(0, Needed(cfg, cycle) - |cfg.faulty|));
    assert Run(cfg, []) == INITIAL;
    var s1 := SideFinishes(cfg, INITIAL, left, cycle, a);
    var s2, y := SidePublishes(cfg, s1, right, cycle, b);
    var s3 := ObservedWith(cfg, s2, right, y);
    var id :| id in left;
    g := Result(id, cycle, PlanOf(cfg, cycle, a).lsu);
    assert Completed(s1, id, cycle, PlanOf(cfg, cycle, a));
    assert g in s2.finished;
    actions :| Run(cfg, actions) == s3;
  }

  lemma MadeUp(cfg: Config, cycle: U64, batch: seq<TransactionEntry>) returns (actions: seq<Action>)
    requires |cfg.faulty| >= Needed(cfg, cycle)
    ensures Sighting(cycle, PlanOf(cfg, cycle, batch).lsu) in Run(cfg, actions).observed &&
              Run(cfg, actions).finished == {}
  {
    assert Run(cfg, []) == INITIAL;
    var s, b := LiarPublishes(cfg, INITIAL, cycle, batch);
    var t := ObservedWith(cfg, s, {}, b);
    actions :| Run(cfg, actions) == t;
  }

  // ---------- the exact bounds ----------

  ghost predicate AlwaysBacked(cfg: Config, cycle: U64) {
    forall actions, o :: o in Run(cfg, actions).observed && o.cycle == cycle ==> Backed(cfg, Run(cfg, actions), o)
  }

  ghost predicate ObserversAlwaysAgree(cfg: Config, cycle: U64) {
    forall actions, o, p ::
      o in Run(cfg, actions).observed && p in Run(cfg, actions).observed && o.cycle == cycle && p.cycle == cycle ==>
        SamePrefix(cfg, o.lsu, p.lsu)
  }

  ghost predicate AlwaysMatchesProducers(cfg: Config, cycle: U64) {
    forall actions, o, g ::
      o in Run(cfg, actions).observed && g in Run(cfg, actions).finished && o.cycle == cycle && g.cycle == cycle ==>
        SamePrefix(cfg, o.lsu, g.lsu)
  }

  /** What an observer takes was returned by a producer, in every run, exactly while the faulty
      ids are fewer than the outputs an observer waits for. */
  lemma BackedExactly(cfg: Config, cycle: U64)
    ensures AlwaysBacked(cfg, cycle) <==> |cfg.faulty| < Needed(cfg, cycle)
  {
    if |cfg.faulty| < Needed(cfg, cycle) {
      forall actions, o | o in Run(cfg, actions).observed && o.cycle == cycle
        ensures Backed(cfg, Run(cfg, actions), o)
      {
        ObserverAgrees(cfg, actions, o);
      }
    } else {
      var actions := MadeUp(cfg, cycle, []);
      var o := Sighting(cycle, PlanOf(cfg, cycle, []).lsu);
      assert o in Run(cfg, actions).observed && !Backed(cfg, Run(cfg, actions), o);
    }
  }

  /** Two observers hold updates of one hash prefix, in every run, exactly under this bound,
      wherever two batches lead to different prefixes. */
  lemma ObserversAgreeExactly(cfg: Config, cycle: U64, a: seq<TransactionEntry>, b: seq<TransactionEntry>)
    requires !SamePrefix(cfg, PlanOf(cfg, cycle, a).lsu, PlanOf(cfg, cycle, b).lsu)
    ensures ObserversAlwaysAgree(cfg, cycle) <==> ObserversMeet(cfg, cycle)
  {
    if ObserversMeet(cfg, cycle) {
      forall actions, o, p |
        o in Run(cfg, actions).observed && p in Run(cfg, actions).observed && o.cycle == cycle && p.cycle == cycle
        ensures SamePrefix(cfg, o.lsu, p.lsu)
      {
        ObserversAgree(cfg, actions, o, p);
      }
    } else {
      var actions := ObserversPart(cfg, cycle, a, b);
    }
  }

  /** The same of an observer and a producer. */
  lemma MatchesProducersExactly(cfg: Config, cycle: U64, a: seq<TransactionEntry>, b: seq<TransactionEntry>)
    requires !SamePrefix(cfg, PlanOf(cfg, cycle, a).lsu, PlanOf(cfg, cycle, b).lsu)
    ensures AlwaysMatchesProducers(cfg, cycle) <==> ObserverMeetsProducers(cfg, cycle)
  {
    if ObserverMeetsProducers(cfg, cycle) {
      forall actions, o, g |
        o in Run(cfg, actions).observed && g in Run(cfg, actions).finished && o.cycle == cycle && g.cycle == cycle
        ensures SamePrefix(cfg, o.lsu, g.lsu)
      {
        ObserverMatchesProducers(cfg, actions, o, g);
      }
    } else {
      var actions, g := ObserverParts(cfg, cycle, a, b);
      assert !SamePrefix(cfg, Sighting(cycle, PlanOf(cfg, cycle, b).lsu).lsu, g.lsu);
    }
  }
}
