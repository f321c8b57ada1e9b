/** The agreement bound is exact, and the protocol is not vacuous: the runs that show it. */
module Exactness {
  import opened Binary
  import opened Sorting
  import opened Ledger
  import Majority
  import opened Phases
  import opened Network
  import opened Steps
  import opened Protocol
  import opened Safety
  import opened Preservation
  import opened Agreement
  import opened Progress

  function Digest(plan: Plan, round: Round): Hash { if round == Third then plan.lsuHash else plan.firstHash }

  /** The producer has sent its report of the round, for the plan's digest. */
  ghost predicate At(s: System, id: Id, cycle: U64, plan: Plan, round: Round) {
    && id in s.nodes && s.nodes[id].producer.cycle == cycle
    && (id, cycle) in s.started && s.started[(id, cycle)] == plan
    && match round
       case First => s.nodes[id].stage.Constructed? && s.nodes[id].stage.quantity.firstHash == plan.firstHash
       case Second => s.nodes[id].stage.Campaigned? && s.nodes[id].stage.candidate.majorityHash == plan.firstHash
       case Third => s.nodes[id].stage.Voted? && s.nodes[id].stage.vote.ledgerHash == plan.lsuHash
  }

  ghost predicate Untouched(s: System, t: System, ids: set<Id>) {
    forall j :: j !in ids ==> (j in s.nodes <==> j in t.nodes) && (j in s.nodes ==> t.nodes[j] == s.nodes[j])
  }

  ghost predicate QuorumSaid(cfg: Config, s: System, cycle: U64, plan: Plan, round: Round) {
    |Reporters(s.sent, round, cycle, Digest(plan, round))| >= Quorum(cfg, cycle)
  }

  // ---------- single steps ----------

  /** Sending one report changes nothing else. */
  lemma ReportSent(s: System, id: Id, p: Producer, stage: Stage, m: Message)
    requires ReportOf(m).Some?
    ensures var t, r := Send(s, id, p, stage, {m}), ReportOf(m).value;
            && Grows(s, t) && Untouched(s, t, {id}) && t.started == s.started
            && t.nodes[id] == Node(p, stage)
            && r.id in Reporters(t.sent, r.round, r.cycle, r.digest)
  {
    assert m in Send(s, id, p, stage, {m}).sent;
  }

  lemma StartReaches(cfg: Config, s: System, a: Action) returns (p: Producer, q: Quantity, plan: Plan)
    requires Reachable(cfg, s) && a.Start? && a.id in Members(cfg, a.cycle) && a.id !in cfg.faulty &&
               (a.id, a.cycle) !in s.started
    ensures Reachable(cfg, Send(s, a.id, p, Constructed(q), {QuantityMsg(q)})
                             .(started := s.started[(a.id, a.cycle) := plan]))
    ensures p.cycle == a.cycle && q.cycle == a.cycle && q.producerId == p.id == NodeAt(s, a.id, a.key).producer.id
    ensures plan.batch == a.batch && q.firstHash == plan.firstHash
  {
    plan := PlanOf(cfg, a.cycle, a.batch);
    ReachableStep(cfg, s, a);
    var reset := ResetForCycle(NodeAt(s, a.id, a.key).producer, a.cycle, cfg.committee(a.cycle));
    p, q := Construct(cfg.env, reset, a.batch, a.now).1, Construct(cfg.env, reset, a.batch, a.now).0;
  }

  lemma NodeKnowsItself(cfg: Config, s: System, id: Id)
    requires Reachable(cfg, s)
    ensures NodeAt(s, id, ZERO_HASH).producer.id == id
  {
    ReachableKeeps(cfg, s);
    if id in s.nodes { assert Working(cfg, s, id, s.nodes[id]); }
  }

  /** The producer has entered the cycle with the batch and reported its first hash. */
  ghost predicate Opened(s: System, id: Id, cycle: U64, batch: seq<TransactionEntry>) {
    && (id, cycle) in s.started && s.started[(id, cycle)].batch == batch
    && At(s, id, cycle, s.started[(id, cycle)], First)
    && id in Reporters(s.sent, First, cycle, s.started[(id, cycle)].firstHash)
  }

  lemma StartOne(cfg: Config, s: System, id: Id, cycle: U64, batch: seq<TransactionEntry>) returns (t: System)
    requires Reachable(cfg, s) && id in Members(cfg, cycle) && id !in cfg.faulty && (id, cycle) !in s.started
    ensures Reachable(cfg, t) && Grows(s, t) && Untouched(s, t, {id})
    ensures t.started.Keys == s.started.Keys + {(id, cycle)}
    ensures Opened(t, id, cycle, batch)
  {
    NodeKnowsItself(cfg, s, id);
    var p, q, plan := StartReaches(cfg, s, Start(id, ZERO_HASH, cycle, batch, 0));
    ReportSent(s, id, p, Constructed(q), QuantityMsg(q));
    t := Send(s, id, p, Constructed(q), {QuantityMsg(q)}).(started := s.started[(id, cycle) := plan]);
  }

  lemma OpenedPlan(cfg: Config, s: System, id: Id, cycle: U64, batch: seq<TransactionEntry>)
    requires Reachable(cfg, s) && Opened(s, id, cycle, batch)
    ensures s.started[(id, cycle)] == PlanOf(cfg, cycle, batch)
  {
    ReachableKeeps(cfg, s);
  }

  lemma CampaignReaches(cfg: Config, s: System, id: Id, heard: seq<Envelope>, p: Producer, c: Candidate)
    requires Reachable(cfg, s) && id in s.nodes && s.nodes[id].stage.Constructed? && Delivered(s.sent, heard)
    requires CampaignHeard(cfg.env, s.nodes[id].producer, s.nodes[id].stage.quantity, heard, 0) == (Ok(c), p)
    ensures Reachable(cfg, Send(s, id, p, Campaigned(c), {CandidateMsg(c)}))
  {
    ReachableStep(cfg, s, Campaigning(id, heard, 0));
    assert CampaignStep(cfg, s, id, heard, 0) == Send(s, id, p, Campaigned(c), {CandidateMsg(c)});
  }

  lemma CampaignTaken(cfg: Config, s: System, id: Id, cycle: U64, plan: Plan) returns (p: Producer, c: Candidate)
    requires Reachable(cfg, s) && At(s, id, cycle, plan, First) && QuorumSaid(cfg, s, cycle, plan, First)
    ensures Reachable(cfg, Send(s, id, p, Campaigned(c), {CandidateMsg(c)}))
    ensures p.cycle == cycle && c.majorityHash == plan.firstHash && c.cycle == cycle && c.producerId == id
  {
    ReachableKeeps(cfg, s);
    assert Working(cfg, s, id, s.nodes[id]);
    var before, own := s.nodes[id].producer, s.nodes[id].stage.quantity;
    var heard := Everything(s.sent, First, cycle, plan.firstHash);
    CampaignSucceeds(cfg.env, before, own, s.sent, 0);
    CampaignYields(cfg.env, before, own, heard, 0);
    p, c := CampaignHeard(cfg.env, before, own, heard, 0).1, CampaignHeard(cfg.env, before, own, heard, 0).0.value;
    CampaignReaches(cfg, s, id, heard, p, c);
  }

  lemma CampaignOne(cfg: Config, s: System, id: Id, cycle: U64, plan: Plan) returns (t: System)
    requires Reachable(cfg, s) && At(s, id, cycle, plan, First) && QuorumSaid(cfg, s, cycle, plan, First)
    ensures Reachable(cfg, t) && Grows(s, t) && Untouched(s, t, {id}) && t.started == s.started
    ensures At(t, id, cycle, plan, Second)
    ensures id in Reporters(t.sent, Second, cycle, plan.firstHash)
  {
    var p, c := CampaignTaken(cfg, s, id, cycle, plan);
    ReportSent(s, id, p, Campaigned(c), CandidateMsg(c));
    t := Send(s, id, p, Campaigned(c), {CandidateMsg(c)});
  }

  lemma VoteReaches(cfg: Config, s: System, id: Id, heard: seq<Envelope>, p: Producer, v: Vote)
    requires Reachable(cfg, s) && id in s.nodes && s.nodes[id].stage.Campaigned? && Delivered(s.sent, heard)
    requires VoteHeard(cfg.env, s.nodes[id].producer, s.nodes[id].stage.candidate, heard, 0) == (Ok(v), p)
    ensures Reachable(cfg, Send(s, id, p, Voted(v), {VoteMsg(v)}))
  {
    ReachableStep(cfg, s, Voting(id, heard, 0));
    assert VoteStep(cfg, s, id, heard, 0) == Send(s, id, p, Voted(v), {VoteMsg(v)});
  }

  /** The producer's plan is what voting builds. */
  lemma PlanInForce(cfg: Config, s: System, id: Id, cycle: U64, plan: Plan)
    requires Reachable(cfg, s) && id in s.nodes && s.nodes[id].stage != Idle && s.nodes[id].producer.cycle == cycle
    requires (id, cycle) in s.started && s.started[(id, cycle)] == plan
    ensures Working(cfg, s, id, s.nodes[id])
    ensures var p := s.nodes[id].producer;
            p.selected != [] && Canonical(p.selected) == p.selected &&
            BuildUpdate(cfg.env, cycle, plan.partial, p.selected) == plan.lsu
    ensures UpdateHash(cfg.env, plan.lsu) == plan.lsuHash
  {
    ReachableKeeps(cfg, s);
    assert Working(cfg, s, id, s.nodes[id]);
    CommitteeKept(cfg.committee(cycle), id);
    assert plan == PlanOf(cfg, cycle, plan.batch);
  }

  lemma VoteTaken(cfg: Config, s: System, id: Id, cycle: U64, plan: Plan) returns (p: Producer, v: Vote)
    requires Reachable(cfg, s) && At(s, id, cycle, plan, Second) && QuorumSaid(cfg, s, cycle, plan, Second)
    ensures Reachable(cfg, Send(s, id, p, Voted(v), {VoteMsg(v)}))
    ensures p.cycle == cycle && v.ledgerHash == plan.lsuHash && v.cycle == cycle && v.producerId == id
  {
    PlanInForce(cfg, s, id, cycle, plan);
    var before, own := s.nodes[id].producer, s.nodes[id].stage.candidate;
    var heard := Everything(s.sent, Second, cycle, plan.firstHash);
    VoteSucceeds(cfg.env, before, own, s.sent, 0);
    VoteYields(cfg.env, before, own, heard, 0);
    p, v := VoteHeard(cfg.env, before, own, heard, 0).1, VoteHeard(cfg.env, before, own, heard, 0).0.value;
    VoteReaches(cfg, s, id, heard, p, v);
  }

  lemma VoteOne(cfg: Config, s: System, id: Id, cycle: U64, plan: Plan) returns (t: System)
    requires Reachable(cfg, s) && At(s, id, cycle, plan, Second) && QuorumSaid(cfg, s, cycle, plan, Second)
    ensures Reachable(cfg, t) && Grows(s, t) && Untouched(s, t, {id}) && t.started == s.started
    ensures At(t, id, cycle, plan, Third)
    ensures id in Reporters(t.sent, Third, cycle, plan.lsuHash)
  {
    var p, v := VoteTaken(cfg, s, id, cycle, plan);
    ReportSent(s, id, p, Voted(v), VoteMsg(v));
    t := Send(s, id, p, Voted(v), {VoteMsg(v)});
  }

  lemma FinishReaches(cfg: Config, s: System, id: Id, heard: seq<Envelope>, output: Output)
    requires Reachable(cfg, s) && id in s.nodes && s.nodes[id].stage.Voted? && Delivered(s.sent, heard)
    requires SynchronizeHeard(cfg.env, s.nodes[id].producer, s.nodes[id].stage.vote, heard, 0) == Ok(output)
    ensures Reachable(cfg, Publish(s, id, s.nodes[id].producer, output))
  {
    ReachableStep(cfg, s, Synchronizing(id, heard, 0));
    SynchronizeTaken(cfg, s, id, heard, 0);
    SynchronizePublishes(cfg, s, id, heard, output);
  }

  lemma SynchronizePublishes(cfg: Config, s: System, id: Id, heard: seq<Envelope>, output: Output)
    requires id in s.nodes && s.nodes[id].stage.Voted?
    requires SynchronizeHeard(cfg.env, s.nodes[id].producer, s.nodes[id].stage.vote, heard, 0) == Ok(output)
    ensures SynchronizeStep(cfg, s, id, heard, 0) == Publish(s, id, s.nodes[id].producer, output)
  {}

  /** The producer has returned the plan's update and published its output and the update. */
  ghost predicate Completed(s: System, id: Id, cycle: U64, plan: Plan) {
    && Result(id, cycle, plan.lsu) in s.finished
    && id in Publishers(s.sent, cycle, AddressOf(plan.lsuHash))
    && UpdateMsg(LsuBroadcast(plan.lsu, cycle, id)) in s.sent
  }

  lemma FinishOne(cfg: Config, s: System, id: Id, cycle: U64, plan: Plan) returns (t: System)
    requires Reachable(cfg, s) && At(s, id, cycle, plan, Third) && QuorumSaid(cfg, s, cycle, plan, Third)
    ensures Reachable(cfg, t) && Grows(s, t) && Untouched(s, t, {id}) && t.started == s.started
    ensures Completed(t, id, cycle, plan)
  {
    PlanInForce(cfg, s, id, cycle, plan);
    var p, own := s.nodes[id].producer, s.nodes[id].stage.vote;
    SynchronizeSucceeds(cfg.env, p, own, s.sent, 0);
    var heard := Everything(s.sent, Third, cycle, plan.lsuHash);
    var output := SynchronizeHeard(cfg.env, p, own, heard, 0).value;
    FinishReaches(cfg, s, id, heard, output);
    SynchronizeYields(cfg.env, p, own, heard, 0);
    t := Publish(s, id, p, output);
    assert OutputMsg(output) in t.sent;
  }

  function Claim(round: Round, cycle: U64, id: Id, digest: Hash): (m: Message)
    ensures ReportOf(m) == Some(Report(round, cycle, id, digest)) && Sender(m) == id
  {
    match round
    case First => QuantityMsg(Quantity(digest, cycle, id, 0))
    case Second => CandidateMsg(Candidate(digest, ZERO_HASH, cycle, id, 0))
    case Third => VoteMsg(Vote(digest, ZERO_HASH, cycle, id, 0))
  }

  // ---------- whole rounds ----------

  lemma {:induction false} StartAll(cfg: Config, s: System, ids: set<Id>, cycle: U64, batch: seq<TransactionEntry>)
    returns (t: System)
    requires Reachable(cfg, s) && ids <= Members(cfg, cycle) && ids !! cfg.faulty
    requires forall id :: id in ids ==> (id, cycle) !in s.started
    ensures Reachable(cfg, t) && Grows(s, t) && Untouched(s, t, ids)
    ensures forall k :: k in t.started ==> k in s.started || k.0 in ids
    ensures forall id :: id in ids ==> Opened(t, id, cycle, batch)
    decreases ids
  {
    t := s;
    if ids != {} {
      var id :| id in ids;
      var s1 := StartOne(cfg, s, id, cycle, batch);
      t := StartAll(cfg, s1, ids - {id}, cycle, batch);
      OpenedStays(s1, t, id, cycle, batch, ids - {id});
    }
  }

  lemma OpenedStays(s: System, t: System, id: Id, cycle: U64, batch: seq<TransactionEntry>, others: set<Id>)
    requires Opened(s, id, cycle, batch) && Grows(s, t) && Untouched(s, t, others) && id !in others
    ensures Opened(t, id, cycle, batch)
  {
    assert (id, cycle) in s.started;
  }

  /** Everyone who opened with the batch follows its plan. */
  lemma AllAtFirst(cfg: Config, s: System, ids: set<Id>, cycle: U64, batch: seq<TransactionEntry>)
    requires Reachable(cfg, s) && forall id :: id in ids ==> Opened(s, id, cycle, batch)
    ensures forall id :: id in ids ==> At(s, id, cycle, PlanOf(cfg, cycle, batch), First)
    ensures ids <= Reporters(s.sent, First, cycle, PlanOf(cfg, cycle, batch).firstHash)
  {
    forall id | id in ids
      ensures At(s, id, cycle, PlanOf(cfg, cycle, batch), First)
      ensures id in Reporters(s.sent, First, cycle, PlanOf(cfg, cycle, batch).firstHash)
    {
      OpenedPlan(cfg, s, id, cycle, batch);
    }
  }

  lemma {:induction false} CampaignAll(cfg: Config, s: System, ids: set<Id>, cycle: U64, plan: Plan) returns (t: System)
    requires Reachable(cfg, s) && QuorumSaid(cfg, s, cycle, plan, First)
    requires forall id :: id in ids ==> At(s, id, cycle, plan, First)
    ensures Reachable(cfg, t) && Grows(s, t) && Untouched(s, t, ids) && t.started == s.started
    ensures forall id :: id in ids ==> At(t, id, cycle, plan, Second)
    ensures ids <= Reporters(t.sent, Second, cycle, plan.firstHash)
    decreases ids
  {
    t := s;
    if ids != {} {
      var id :| id in ids;
      var s1 := CampaignOne(cfg, s, id, cycle, plan);
      ReportersGrow(s.sent, s1.sent, First, cycle, plan.firstHash);
      t := CampaignAll(cfg, s1, ids - {id}, cycle, plan);
    }
  }

  lemma {:induction false} VoteAll(cfg: Config, s: System, ids: set<Id>, cycle: U64, plan: Plan) returns (t: System)
    requires Reachable(cfg, s) && QuorumSaid(cfg, s, cycle, plan, Second)
    requires forall id :: id in ids ==> At(s, id, cycle, plan, Second)
    ensures Reachable(cfg, t) && Grows(s, t) && Untouched(s, t, ids) && t.started == s.started
    ensures forall id :: id in ids ==> At(t, id, cycle, plan, Third)
    ensures ids <= Reporters(t.sent, Third, cycle, plan.lsuHash)
    decreases ids
  {
    t := s;
    if ids != {} {
      var id :| id in ids;
      var s1 := VoteOne(cfg, s, id, cycle, plan);
      ReportersGrow(s.sent, s1.sent, Second, cycle, plan.firstHash);
      t := VoteAll(cfg, s1, ids - {id}, cycle, plan);
    }
  }

  lemma CompletedStays(s: System, t: System, id: Id, cycle: U64, plan: Plan)
    requires Completed(s, id, cycle, plan) && Grows(s, t)
    ensures Completed(t, id, cycle, plan)
  {}

  lemma {:induction false} FinishAll(cfg: Config, s: System, ids: set<Id>, cycle: U64, plan: Plan) returns (t: System)
    requires Reachable(cfg, s) && QuorumSaid(cfg, s, cycle, plan, Third)
    requires forall id :: id in ids ==> At(s, id, cycle, plan, Third)
    ensures Reachable(cfg, t) && Grows(s, t) && t.started == s.started
    ensures forall id :: id in ids ==> Completed(t, id, cycle, plan)
    decreases ids
  {
    t := s;
    if ids != {} {
      var id :| id in ids;
      var s1 := FinishOne(cfg, s, id, cycle, plan);
      ReportersGrow(s.sent, s1.sent, Third, cycle, plan.lsuHash);
      t := FinishAll(cfg, s1, ids - {id}, cycle, plan);
      CompletedStays(s1, t, id, cycle, plan);
    }
  }

  lemma {:induction false} ClaimAll(cfg: Config, s: System, ids: set<Id>, cycle: U64, round: Round, digest: Hash)
    returns (t: System)
    requires Reachable(cfg, s) && ids <= cfg.faulty
    ensures Reachable(cfg, t) && Grows(s, t) && t.nodes == s.nodes && t.started == s.started
    ensures ids <= Reporters(t.sent, round, cycle, digest)
    decreases ids
  {
    t := s;
    if ids != {} {
      var id :| id in ids;
      var m := Claim(round, cycle, id, digest);
      var s1 := Step(cfg, s, Inject(m));
      ReachableStep(cfg, s, Inject(m));
      t := ClaimAll(cfg, s1, ids - {id}, cycle, round, digest);
      assert m in t.sent;
    }
  }

  /** The faulty ids add their reports to those of `ids`, which makes a quorum. */
  lemma Supported(cfg: Config, s: System, ids: set<Id>, cycle: U64, plan: Plan, round: Round) returns (t: System)
    requires Reachable(cfg, s) && ids !! cfg.faulty && |ids| + |cfg.faulty| >= Quorum(cfg, cycle)
    requires ids <= Reporters(s.sent, round, cycle, Digest(plan, round))
    ensures Reachable(cfg, t) && Grows(s, t) && t.nodes == s.nodes && t.started == s.started
    ensures QuorumSaid(cfg, t, cycle, plan, round)
  {
    t := ClaimAll(cfg, s, cfg.faulty, cycle, round, Digest(plan, round));
    var reporters := Reporters(t.sent, round, cycle, Digest(plan, round));
    assert ids <= reporters;
    Majority.Subset(ids + cfg.faulty, reporters);
  }

  /** From the first reports to the results. */
  lemma RoundsFinish(cfg: Config, s: System, ids: set<Id>, cycle: U64, plan: Plan) returns (t: System)
    requires Reachable(cfg, s) && ids !! cfg.faulty && |ids| + |cfg.faulty| >= Quorum(cfg, cycle)
    requires forall id :: id in ids ==> At(s, id, cycle, plan, First)
    requires ids <= Reporters(s.sent, First, cycle, plan.firstHash)
    ensures Reachable(cfg, t) && Grows(s, t) && t.started == s.started
    ensures forall id :: id in ids ==> Completed(t, id, cycle, plan)
  {
    var s2 := Supported(cfg, s, ids, cycle, plan, First);
    var s3 := CampaignAll(cfg, s2, ids, cycle, plan);
    var s4 := Supported(cfg, s3, ids, cycle, plan, Second);
    var s5 := VoteAll(cfg, s4, ids, cycle, plan);
    var s6 := Supported(cfg, s5, ids, cycle, plan, Third);
    t := FinishAll(cfg, s6, ids, cycle, plan);
  }

  /** Honest members sharing a batch all finish with its update once they and the faulty ids
      together make a quorum. */
  lemma SideFinishes(cfg: Config, s: System, ids: set<Id>, cycle: U64, batch: seq<TransactionEntry>) returns (t: System)
    requires Reachable(cfg, s) && ids <= Members(cfg, cycle) && ids !! cfg.faulty
    requires |ids| + |cfg.faulty| >= Quorum(cfg, cycle)
    requires forall id :: id in ids ==> (id, cycle) !in s.started
    ensures Reachable(cfg, t) && Grows(s, t)
    ensures forall k :: k in t.started ==> k in s.started || k.0 in ids
    ensures forall id :: id in ids ==> Completed(t, id, cycle, PlanOf(cfg, cycle, batch))
  {
    var s1 := StartAll(cfg, s, ids, cycle, batch);
    AllAtFirst(cfg, s1, ids, cycle, batch);
    t := RoundsFinish(cfg, s1, ids, cycle, PlanOf(cfg, cycle, batch));
  }

  // ---------- the theorems ----------

  ghost function Honest(cfg: Config, cycle: U64): set<Id> { Members(cfg, cycle) - cfg.faulty }

  /** A committee without faults always has a run in which every member returns the update. */
  lemma EveryoneCanFinish(cfg: Config, cycle: U64, batch: seq<TransactionEntry>) returns (actions: seq<Action>)
    requires cfg.faulty == {} && Members(cfg, cycle) != {}
    ensures forall id :: id in Members(cfg, cycle) ==>
              Result(id, cycle, PlanOf(cfg, cycle, batch).lsu) in Run(cfg, actions).finished
  {
    assert Run(cfg, []) == INITIAL;
    var t := SideFinishes(cfg, INITIAL, Members(cfg, cycle), cycle, batch);
    assert forall id :: id in Members(cfg, cycle) ==> Completed(t, id, cycle, PlanOf(cfg, cycle, batch));
    actions :| Run(cfg, actions) == t;
  }

  lemma {:induction false} TakeSubset(all: set<Id>, n: nat) returns (part: set<Id>)
    requires n <= |all|
    ensures part <= all && |part| == n
  {
    part := {};
    if n > 0 {
      var x :| x in all;
      var rest := TakeSubset(all - {x}, n - 1);
      part := rest + {x};
    }
  }

  lemma SplitHonest(cfg: Config, cycle: U64) returns (left: set<Id>, right: set<Id>)
    requires |Honest(cfg, cycle)| >= 2 && !Intersecting(cfg, cycle)
    ensures left <= Honest(cfg, cycle) && right <= Honest(cfg, cycle) && left !! right && left != {} && right != {}
    ensures |left| + |cfg.faulty| >= Quorum(cfg, cycle) && |right| + |cfg.faulty| >= Quorum(cfg, cycle)
  {
    var honest := Honest(cfg, cycle);
    assert Members(cfg, cycle) + cfg.faulty == honest + cfg.faulty;
    left := TakeSubset(honest, Max(1, Quorum(cfg, cycle) - |cfg.faulty|));
    right := honest - left;
    assert honest == left + right;
  }

  /** Beyond the bound two honest members can return different updates. */
  lemma DisagreementRun(cfg: Config, cycle: U64, a: seq<TransactionEntry>, b: seq<TransactionEntry>)
    returns (actions: seq<Action>, f: Result, g: Result)
    requires |Honest(cfg, cycle)| >= 2 && !Intersecting(cfg, cycle)
    ensures f in Run(cfg, actions).finished && g in Run(cfg, actions).finished && f.cycle == g.cycle == cycle
    ensures f.lsu == PlanOf(cfg, cycle, a).lsu && g.lsu == PlanOf(cfg, cycle, b).lsu
  {
    var left, right := SplitHonest(cfg, cycle);
    assert Run(cfg, []) == INITIAL;
    var s := SideFinishes(cfg, INITIAL, left, cycle, a);
    var t := SideFinishes(cfg, s, right, cycle, b);
    var x, y :| x in left && y in right;
    assert Completed(s, x, cycle, PlanOf(cfg, cycle, a)) && Completed(t, y, cycle, PlanOf(cfg, cycle, b));
    f, g := Result(x, cycle, PlanOf(cfg, cycle, a).lsu), Result(y, cycle, PlanOf(cfg, cycle, b).lsu);
    assert f in s.finished;
    actions :| Run(cfg, actions) == t;
  }

  /** In every run all updates returned in the cycle have one hash. */
  ghost predicate AlwaysAgrees(cfg: Config, cycle: U64) {
    forall actions, f, g ::
      f in Run(cfg, actions).finished && g in Run(cfg, actions).finished && f.cycle == cycle && g.cycle == cycle ==>
        UpdateHash(cfg.env, f.lsu) == UpdateHash(cfg.env, g.lsu)
  }

  lemma LoneMemberAgrees(cfg: Config, cycle: U64, actions: seq<Action>, f: Result, g: Result)
    requires |Honest(cfg, cycle)| <= 1 && f in Run(cfg, actions).finished && g in Run(cfg, actions).finished
    requires f.cycle == g.cycle == cycle
    ensures f.lsu == g.lsu
  {
    RunKeeps(cfg, actions);
    LoneResult(cfg, Run(cfg, actions), f, g);
  }

  lemma LoneResult(cfg: Config, s: System, f: Result, g: Result)
    requires AllFinished(cfg, s) && f in s.finished && g in s.finished && f.cycle == g.cycle
    requires |Honest(cfg, f.cycle)| <= 1
    ensures f.lsu == g.lsu
  {
    assert Finished(cfg, s, f) && Finished(cfg, s, g);
    OnlyOne(Honest(cfg, f.cycle), f.id, g.id);
  }

  lemma OnlyOne(ids: set<Id>, x: Id, y: Id)
    requires |ids| <= 1 && x in ids && y in ids
    ensures x == y
  {
    if x != y { Majority.Subset({x, y}, ids); }
  }

  /** The exact condition for agreement, wherever two batches lead to different hashes: at most
      one honest member, or a quorum too large for the equivocators to serve two sides. */
  lemma AgreementExactly(cfg: Config, cycle: U64, a: seq<TransactionEntry>, b: seq<TransactionEntry>)
    requires PlanOf(cfg, cycle, a).lsuHash != PlanOf(cfg, cycle, b).lsuHash
    ensures AlwaysAgrees(cfg, cycle) <==> |Honest(cfg, cycle)| <= 1 || Intersecting(cfg, cycle)
  {
    if |Honest(cfg, cycle)| <= 1 || Intersecting(cfg, cycle) {
      forall actions, f, g |
        f in Run(cfg, actions).finished && g in Run(cfg, actions).finished && f.cycle == cycle && g.cycle == cycle
        ensures UpdateHash(cfg.env, f.lsu) == UpdateHash(cfg.env, g.lsu)
      {
        if Intersecting(cfg, cycle) { AgreementOverAllRuns(cfg, actions, f, g); }
        else { LoneMemberAgrees(cfg, cycle, actions, f, g); }
      }
    } else {
      var actions, f, g := DisagreementRun(cfg, cycle, a, b);
      assert UpdateHash(cfg.env, f.lsu) != UpdateHash(cfg.env, g.lsu);
    }
  }
}
