/** Every step of the network keeps the invariant. */
module Preservation {
  import opened Binary
  import opened Sorting
  import opened Ledger
  import Majority
  import opened Phases
  import opened Network
  import opened Collectors
  import opened Steps
  import opened Observer
  import opened Protocol
  import opened Safety

  // ---------- what a collector counted was really sent ----------

  lemma CountedQuantities(sent: set<Message>, cycle: U64, heard: seq<Envelope>, own: Quantity, h: Octets)
    requires Delivered(sent, heard) && QuantityMsg(own) in sent && own.cycle == cycle
    ensures var c := Collected(QuantityReader(), cycle, heard)[own.producerId := own];
            |Majority.Supporters(FirstHashes(c), h)| <= |Reporters(sent, First, cycle, h)|
  {
    var c := Collected(QuantityReader(), cycle, heard)[own.producerId := own];
    var supporters, reporters := Majority.Supporters(FirstHashes(c), h), Reporters(sent, First, cycle, h);
    forall id | id in supporters ensures id in reporters {
      if id != own.producerId { CollectedSound(QuantityReader(), cycle, heard, id); }
      assert QuantityMsg(c[id]) in sent;
      assert ReportOf(QuantityMsg(c[id])) == Some(Report(First, cycle, id, c[id].firstHash));
    }
    Majority.Subset(supporters, reporters);
  }

  lemma CountedCandidates(sent: set<Message>, cycle: U64, heard: seq<Envelope>, own: Candidate, h: Octets)
    requires Delivered(sent, heard) && CandidateMsg(own) in sent && own.cycle == cycle
    ensures var c := Collected(CandidateReader(), cycle, heard)[own.producerId := own];
            |Majority.Supporters(MajorityHashes(c), h)| <= |Reporters(sent, Second, cycle, h)|
  {
    var c := Collected(CandidateReader(), cycle, heard)[own.producerId := own];
    var supporters, reporters := Majority.Supporters(MajorityHashes(c), h), Reporters(sent, Second, cycle, h);
    forall id | id in supporters ensures id in reporters {
      if id != own.producerId { CollectedSound(CandidateReader(), cycle, heard, id); }
      assert CandidateMsg(c[id]) in sent;
      assert ReportOf(CandidateMsg(c[id])) == Some(Report(Second, cycle, id, c[id].majorityHash));
    }
    Majority.Subset(supporters, reporters);
  }

  lemma CountedVotes(sent: set<Message>, cycle: U64, heard: seq<Envelope>, own: Vote, h: Octets)
    requires Delivered(sent, heard) && VoteMsg(own) in sent && own.cycle == cycle
    ensures var c := Collected(VoteReader(), cycle, heard)[own.producerId := own];
            |Majority.Supporters(LedgerHashes(c), h)| <= |Reporters(sent, Third, cycle, h)|
  {
    var c := Collected(VoteReader(), cycle, heard)[own.producerId := own];
    var supporters, reporters := Majority.Supporters(LedgerHashes(c), h), Reporters(sent, Third, cycle, h);
    forall id | id in supporters ensures id in reporters {
      if id != own.producerId { CollectedSound(VoteReader(), cycle, heard, id); }
      assert VoteMsg(c[id]) in sent;
      assert ReportOf(VoteMsg(c[id])) == Some(Report(Third, cycle, id, c[id].ledgerHash));
    }
    Majority.Subset(supporters, reporters);
  }

  lemma CountedOutputs(sent: set<Message>, cycle: U64, heard: seq<Envelope>, a: Octets)
    requires Delivered(sent, heard)
    ensures |Majority.Supporters(Addresses(Collected(OutputReader(), cycle, heard)), a)| <= |Publishers(sent, cycle, a)|
  {
    var c := Collected(OutputReader(), cycle, heard);
    var supporters, publishers := Majority.Supporters(Addresses(c), a), Publishers(sent, cycle, a);
    forall id | id in supporters ensures id in publishers {
      CollectedSound(OutputReader(), cycle, heard, id);
      assert OutputMsg(c[id]) in sent;
    }
    Majority.Subset(supporters, publishers);
  }

  // ---------- committees ----------

  lemma CommitteeSize(committee: seq<Id>)
    ensures |Canonical(committee)| == |Elements(committee)|
    ensures |Elements(committee)| <= |committee|
  {
    CanonicalStrict(committee);
    CanonicalElements(committee);
    DistinctCardinality(Canonical(committee));
    CanonicalMembers(committee);
  }

  lemma ResetThreshold(cfg: Config, p: Producer, cycle: U64)
    ensures Required(ResetForCycle(p, cycle, cfg.committee(cycle))) == Quorum(cfg, cycle)
  {
    CommitteeSize(cfg.committee(cycle));
  }

  // ---------- what each phase yields ----------

  lemma CampaignYields(env: Env, p: Producer, own: Quantity, heard: seq<Envelope>, now: U64)
    ensures var (r, next) := CampaignHeard(env, p, own, heard, now);
            && next == p.(producerList := next.producerList)
            && (r.Ok? ==>
                  && r.value.producerId == p.id && r.value.cycle == p.cycle
                  && var c := Collected(QuantityReader(), p.cycle, heard)[own.producerId := own];
                     |Majority.Supporters(FirstHashes(c), r.value.majorityHash)| >= Required(p))
  {}

  /** The update voted for does not depend on what was heard. */
  lemma VoteYields(env: Env, p: Producer, own: Candidate, heard: seq<Envelope>, now: U64)
    requires p.selected != [] && Canonical(p.selected) == p.selected
    ensures var (r, next) := VoteHeard(env, p, own, heard, now);
            && next == p.(ledgerUpdate := next.ledgerUpdate, voteList := next.voteList)
            && (r.Ok? ==>
                  && p.partialUpdate.Some? && p.firstHash.Some?
                  && next.ledgerUpdate == Some(BuildUpdate(env, p.cycle, p.partialUpdate.value, p.selected))
                  && r.value.ledgerHash == UpdateHash(env, next.ledgerUpdate.value)
                  && r.value.producerId == p.id && r.value.cycle == p.cycle
                  && var c := Collected(CandidateReader(), p.cycle, heard)[own.producerId := own];
                     |Majority.Supporters(MajorityHashes(c), p.firstHash.value)| >= Required(p))
  {}

  lemma SynchronizeYields(env: Env, p: Producer, own: Vote, heard: seq<Envelope>, now: U64)
    ensures var r := SynchronizeHeard(env, p, own, heard, now);
            r.Ok? ==>
              && p.ledgerUpdate.Some?
              && r.value.address == AddressOf(UpdateHash(env, p.ledgerUpdate.value))
              && r.value.producerId == p.id && r.value.cycle == p.cycle
              && var c := Collected(VoteReader(), p.cycle, heard)[own.producerId := own];
                 |Majority.Supporters(LedgerHashes(c), UpdateHash(env, p.ledgerUpdate.value))| >= Required(p)
  {
    var c := Collected(VoteReader(), p.cycle, heard)[own.producerId := own];
    match Majority.Count(LedgerHashes(c), Required(p))
    case TooFew(_) =>
    case Split(_) =>
    case Agreed(h) => assert |Majority.Supporters(LedgerHashes(c), h)| >= Required(p);
  }

  lemma AddressSplit(a: Octets, h: Hash)
    requires |a| > 0 && a[..1] == [1] && a[1..] == h[..20]
    ensures a == AddressOf(h)
  {
    assert a == a[..1] + a[1..];
  }

  lemma VerdictYields(env: Env, committee: seq<Id>, outputs: map<Id, Output>, broadcasts: seq<LsuBroadcast>)
    ensures var r := Verdict(env, committee, outputs, broadcasts);
            r.Some? ==>
              |Majority.Supporters(Addresses(outputs), AddressOf(UpdateHash(env, r.value)))| >=
              ObserverRequired(committee)
  {
    var r := Verdict(env, committee, outputs, broadcasts);
    if r.Some? {
      AddressSplit(AgreedAddress(Addresses(outputs), ObserverRequired(committee)).value, UpdateHash(env, r.value));
    }
  }

  lemma ObservedYields(env: Env, committee: seq<Id>, cycle: U64, forOutputs: seq<Envelope>, forUpdates: seq<Envelope>)
    ensures var r := Observed(env, committee, cycle, forOutputs, forUpdates);
            r.Some? ==>
              |Majority.Supporters(Addresses(Collected(OutputReader(), cycle, forOutputs)),
                                   AddressOf(UpdateHash(env, r.value)))|
              >= ObserverRequired(committee)
  {
    var outputs := Collected(OutputReader(), cycle, forOutputs);
    var broadcasts := Heard(UpdateReader(), cycle, forUpdates);
    VerdictYields(env, committee, outputs, broadcasts);
  }

  // ---------- the steps ----------

  /** One new message and one changed node. */
  lemma SendKeeps(cfg: Config, s: System, id: Id, p: Producer, stage: Stage, m: Message)
    requires Inv(cfg, s)
    requires var t := Send(s, id, p, stage, {m});
             && Working(cfg, t, id, Node(p, stage))
             && Published(cfg, t, m)
             && (ReportOf(m).Some? ==> Justified(cfg, t, ReportOf(m).value))
    ensures Inv(cfg, Send(s, id, p, stage, {m}))
  {
    var t := Send(s, id, p, stage, {m});
    assert t.sent - s.sent <= {m};
    Extend(cfg, s, t);
  }

  /** A producer that stops says nothing more in this cycle. */
  lemma StopKeeps(cfg: Config, s: System, id: Id, p: Producer)
    requires Inv(cfg, s) && p.id == id
    ensures Inv(cfg, Send(s, id, p, Idle, {}))
  {
    var t := Send(s, id, p, Idle, {});
    assert t.sent - s.sent == {};
    Extend(cfg, s, t);
  }

  lemma StartKeeps(cfg: Config, s: System, a: Action)
    requires Inv(cfg, s) && a.Start?
    ensures Inv(cfg, StartStep(cfg, s, a))
  {
    if a.id !in cfg.faulty && a.id in cfg.committee(a.cycle) && (a.id, a.cycle) !in s.started {
      var before := NodeAt(s, a.id, a.key).producer;
      assert before.id == a.id by { if a.id in s.nodes { assert Working(cfg, s, a.id, s.nodes[a.id]); } }
      var p := ResetForCycle(before, a.cycle, cfg.committee(a.cycle));
      ResetThreshold(cfg, before, a.cycle);
      Registered(cfg, s, a);
      var s1 := s.(started := s.started[(a.id, a.cycle) := PlanOf(cfg, a.cycle, a.batch)]);
      var (quantity, next) := Construct(cfg.env, p, a.batch, a.now);
      QuantitySent(cfg, s1, a.id, a.cycle, next, quantity);
    }
  }

  lemma QuantitySent(cfg: Config, s: System, id: Id, cycle: U64, next: Producer, quantity: Quantity)
    requires Inv(cfg, s) && Entered(cfg, s, id, cycle) && next.id == id && next.cycle == cycle
    requires next.selected == Canonical(cfg.committee(cycle)) && Required(next) == Quorum(cfg, cycle)
    requires next.partialUpdate == Some(s.started[(id, cycle)].partial)
    requires next.firstHash == Some(s.started[(id, cycle)].firstHash)
    requires quantity.firstHash == s.started[(id, cycle)].firstHash && quantity.cycle == cycle &&
               quantity.producerId == id
    ensures Inv(cfg, Send(s, id, next, Constructed(quantity), {QuantityMsg(quantity)}))
  {
    SendKeeps(cfg, s, id, next, Constructed(quantity), QuantityMsg(quantity));
  }

  lemma Registered(cfg: Config, s: System, a: Action)
    requires Inv(cfg, s) && a.Start? && (a.id, a.cycle) !in s.started
    ensures Inv(cfg, s.(started := s.started[(a.id, a.cycle) := PlanOf(cfg, a.cycle, a.batch)]))
  {
    Extend(cfg, s, s.(started := s.started[(a.id, a.cycle) := PlanOf(cfg, a.cycle, a.batch)]));
  }

  lemma CampaignKeeps(cfg: Config, s: System, id: Id, heard: seq<Envelope>, now: U64)
    requires Inv(cfg, s) && id in s.nodes && s.nodes[id].stage.Constructed? && Delivered(s.sent, heard)
    ensures Inv(cfg, CampaignStep(cfg, s, id, heard, now))
  {
    var p, own := s.nodes[id].producer, s.nodes[id].stage.quantity;
    assert Working(cfg, s, id, s.nodes[id]);
    CampaignYields(cfg.env, p, own, heard, now);
    match CampaignHeard(cfg.env, p, own, heard, now) {
      case (Err(_), next) => StopKeeps(cfg, s, id, next);
      case (Ok(candidate), next) =>
        CountedQuantities(s.sent, p.cycle, heard, own, candidate.majorityHash);
        CandidateSent(cfg, s, id, next, candidate);
    }
  }

  lemma CandidateSent(cfg: Config, s: System, id: Id, next: Producer, candidate: Candidate)
    requires Inv(cfg, s) && id in s.nodes && s.nodes[id].stage != Idle
    requires var p := s.nodes[id].producer;
             && next == p.(producerList := next.producerList)
             && candidate.producerId == id && candidate.cycle == p.cycle
             && |Reporters(s.sent, First, p.cycle, candidate.majorityHash)| >= Quorum(cfg, p.cycle)
    ensures Inv(cfg, Send(s, id, next, Campaigned(candidate), {CandidateMsg(candidate)}))
  {
    assert Working(cfg, s, id, s.nodes[id]);
    ReportersGrow(s.sent, s.sent + {CandidateMsg(candidate)}, First, next.cycle, candidate.majorityHash);
    SendKeeps(cfg, s, id, next, Campaigned(candidate), CandidateMsg(candidate));
  }

  lemma CommitteeKept(committee: seq<Id>, id: Id)
    requires id in committee
    ensures Canonical(committee) != [] && Canonical(Canonical(committee)) == Canonical(committee)
  {
    CanonicalStrict(committee);
    CanonicalOfStrict(Canonical(committee));
    CanonicalMembers(committee);
  }

  lemma VoteKeeps(cfg: Config, s: System, id: Id, heard: seq<Envelope>, now: U64)
    requires Inv(cfg, s) && AllPlanned(cfg, s)
    requires id in s.nodes && s.nodes[id].stage.Campaigned? && Delivered(s.sent, heard)
    ensures Inv(cfg, VoteStep(cfg, s, id, heard, now))
  {
    var p, own := s.nodes[id].producer, s.nodes[id].stage.candidate;
    assert Working(cfg, s, id, s.nodes[id]);
    CommitteeKept(cfg.committee(p.cycle), id);
    assert s.started[(id, p.cycle)] == PlanOf(cfg, p.cycle, s.started[(id, p.cycle)].batch);
    VoteYields(cfg.env, p, own, heard, now);
    match VoteHeard(cfg.env, p, own, heard, now) {
      case (Err(_), next) => StopKeeps(cfg, s, id, next);
      case (Ok(vote), next) =>
        CountedCandidates(s.sent, p.cycle, heard, own, p.firstHash.value);
        VoteSent(cfg, s, id, next, vote);
    }
  }

  lemma VoteSent(cfg: Config, s: System, id: Id, next: Producer, vote: Vote)
    requires Inv(cfg, s) && id in s.nodes && s.nodes[id].stage != Idle && s.nodes[id].producer.firstHash.Some?
    requires var p := s.nodes[id].producer;
             && Entered(cfg, s, id, p.cycle)
             && next == p.(ledgerUpdate := Some(s.started[(id, p.cycle)].lsu), voteList := next.voteList)
             && vote.ledgerHash == s.started[(id, p.cycle)].lsuHash
             && vote.producerId == id && vote.cycle == p.cycle
             && |Reporters(s.sent, Second, p.cycle, p.firstHash.value)| >= Quorum(cfg, p.cycle)
    ensures Inv(cfg, Send(s, id, next, Voted(vote), {VoteMsg(vote)}))
  {
    assert Working(cfg, s, id, s.nodes[id]);
    ReportersGrow(s.sent, s.sent + {VoteMsg(vote)}, Second, next.cycle, next.firstHash.value);
    SendKeeps(cfg, s, id, next, Voted(vote), VoteMsg(vote));
  }

  lemma PlannedHash(cfg: Config, s: System, id: Id, cycle: U64)
    requires AllPlanned(cfg, s) && (id, cycle) in s.started
    ensures UpdateHash(cfg.env, s.started[(id, cycle)].lsu) == s.started[(id, cycle)].lsuHash
  {
    assert s.started[(id, cycle)] == PlanOf(cfg, cycle, s.started[(id, cycle)].batch);
  }

  lemma SynchronizeKeeps(cfg: Config, s: System, id: Id, heard: seq<Envelope>, now: U64)
    requires Inv(cfg, s) && AllPlanned(cfg, s)
    requires id in s.nodes && s.nodes[id].stage.Voted? && Delivered(s.sent, heard)
    ensures Inv(cfg, SynchronizeStep(cfg, s, id, heard, now))
  {
    var p, own := s.nodes[id].producer, s.nodes[id].stage.vote;
    assert Working(cfg, s, id, s.nodes[id]);
    PlannedHash(cfg, s, id, p.cycle);
    SynchronizeYields(cfg.env, p, own, heard, now);
    match SynchronizeHeard(cfg.env, p, own, heard, now) {
      case Err(_) => StopKeeps(cfg, s, id, p);
      case Ok(output) =>
        CountedVotes(s.sent, p.cycle, heard, own, UpdateHash(cfg.env, p.ledgerUpdate.value));
        OutputSent(cfg, s, id, output);
    }
  }

  lemma OutputSent(cfg: Config, s: System, id: Id, output: Output)
    requires Inv(cfg, s) && id in s.nodes && s.nodes[id].stage.Voted?
    requires var p := s.nodes[id].producer;
             && Entered(cfg, s, id, p.cycle)
             && output.address == AddressOf(s.started[(id, p.cycle)].lsuHash)
             && output.producerId == id && output.cycle == p.cycle
             && |Reporters(s.sent, Third, p.cycle, s.started[(id, p.cycle)].lsuHash)| >= Quorum(cfg, p.cycle)
    ensures Inv(cfg, Publish(s, id, s.nodes[id].producer, output))
  {
    var p := s.nodes[id].producer;
    var lsu := s.started[(id, p.cycle)].lsu;
    assert Working(cfg, s, id, s.nodes[id]);
    ResultKeeps(cfg, s, id);
    TwoMessages(cfg, s.(finished := s.finished + {Result(p.id, p.cycle, lsu)}), id, p, output,
                UpdateMsg(LsuBroadcast(lsu, p.cycle, p.id)));
  }

  lemma ResultKeeps(cfg: Config, s: System, id: Id)
    requires Inv(cfg, s) && id in s.nodes && s.nodes[id].stage.Voted?
    requires var p := s.nodes[id].producer;
             && Entered(cfg, s, id, p.cycle)
             && |Reporters(s.sent, Third, p.cycle, s.started[(id, p.cycle)].lsuHash)| >= Quorum(cfg, p.cycle)
    ensures var p := s.nodes[id].producer;
            Inv(cfg, s.(finished := s.finished + {Result(id, p.cycle, s.started[(id, p.cycle)].lsu)}))
  {
    var p, own := s.nodes[id].producer, s.nodes[id].stage.vote;
    assert Working(cfg, s, id, s.nodes[id]);
    assert ReportOf(VoteMsg(own)) == Some(Report(Third, p.cycle, id, own.ledgerHash));
    assert Reported(s.sent, Report(Third, p.cycle, id, own.ledgerHash));
    var f := Result(id, p.cycle, s.started[(id, p.cycle)].lsu);
    assert Finished(cfg, s, f);
    FinishedGrows(cfg, s, s.(finished := s.finished + {f}), f);
    Extend(cfg, s, s.(finished := s.finished + {f}));
  }

  lemma TwoMessages(cfg: Config, s: System, id: Id, p: Producer, output: Output, m: Message)
    requires Inv(cfg, s) && p.id == id && m.UpdateMsg?
    requires Published(cfg, s, OutputMsg(output)) && Published(cfg, s, m)
    ensures Inv(cfg, Send(s, id, p, Idle, {OutputMsg(output), m}))
  {
    var t := Send(s, id, p, Idle, {OutputMsg(output), m});
    PublishedGrows(cfg, s, t, OutputMsg(output));
    PublishedGrows(cfg, s, t, m);
    assert t.sent - s.sent <= {OutputMsg(output), m};
    Extend(cfg, s, t);
  }

  lemma SightingKeeps(cfg: Config, s: System, o: Sighting)
    requires Inv(cfg, s) && Sighted(cfg, s, o)
    ensures Inv(cfg, s.(observed := s.observed + {o}))
  {
    var t := s.(observed := s.observed + {o});
    SightedGrows(cfg, s, t, o);
    Extend(cfg, s, t);
  }

  lemma ObserveKeeps(cfg: Config, s: System, cycle: U64, forOutputs: seq<Envelope>, forUpdates: seq<Envelope>)
    requires Inv(cfg, s) && Delivered(s.sent, forOutputs)
    ensures Inv(cfg, ObserveStep(cfg, s, cycle, forOutputs, forUpdates))
  {
    ObservedYields(cfg.env, cfg.committee(cycle), cycle, forOutputs, forUpdates);
    match Observed(cfg.env, cfg.committee(cycle), cycle, forOutputs, forUpdates) {
      case None =>
      case Some(lsu) =>
        CountedOutputs(s.sent, cycle, forOutputs, AddressOf(UpdateHash(cfg.env, lsu)));
        SightingKeeps(cfg, s, Sighting(cycle, lsu));
    }
  }

  lemma StepKeeps(cfg: Config, s: System, a: Action)
    requires Inv(cfg, s) && AllPlanned(cfg, s)
    ensures Inv(cfg, Step(cfg, s, a))
  {
    match a
    case Start(_, _, _, _, _) => StartKeeps(cfg, s, a);
    case Campaigning(id, heard, now) => if CanCampaign(s, id, heard) { CampaignKeeps(cfg, s, id, heard, now); }
    case Voting(id, heard, now) => if CanVote(s, id, heard) { VoteKeeps(cfg, s, id, heard, now); }
    case Synchronizing(id, heard, now) => if CanSynchronize(s, id, heard) { SynchronizeKeeps(cfg, s, id, heard, now); }
    case GiveUp(id) => if id in s.nodes { GiveUpKeeps(cfg, s, id); }
    case Inject(m) => InjectKeeps(cfg, s, m);
    case Observing(cycle, forOutputs, forUpdates) =>
      if CanObserve(s, forOutputs, forUpdates) { ObserveKeeps(cfg, s, cycle, forOutputs, forUpdates); }
  }

  lemma InjectKeeps(cfg: Config, s: System, m: Message)
    requires Inv(cfg, s)
    ensures Sender(m) in cfg.faulty ==> Inv(cfg, s.(sent := s.sent + {m}))
  {
    if Sender(m) in cfg.faulty { Extend(cfg, s, s.(sent := s.sent + {m})); }
  }

  lemma GiveUpKeeps(cfg: Config, s: System, id: Id)
    requires Inv(cfg, s) && id in s.nodes
    ensures Inv(cfg, Send(s, id, s.nodes[id].producer, Idle, {}))
  {
    assert Working(cfg, s, id, s.nodes[id]);
    StopKeeps(cfg, s, id, s.nodes[id].producer);
  }

  lemma StepPlans(cfg: Config, s: System, a: Action)
    requires AllPlanned(cfg, s)
    ensures AllPlanned(cfg, Step(cfg, s, a))
  {
    if a.Start? { StartPlans(cfg, s, a); }
  }

  lemma StartPlans(cfg: Config, s: System, a: Action)
    requires AllPlanned(cfg, s) && a.Start?
    ensures AllPlanned(cfg, StartStep(cfg, s, a))
  {
    var t := StartStep(cfg, s, a);
    if t != s {
      assert t.started == s.started[(a.id, a.cycle) := PlanOf(cfg, a.cycle, a.batch)];
      forall k | k in t.started ensures t.started[k] == PlanOf(cfg, k.1, t.started[k].batch) {
        if k != (a.id, a.cycle) { assert s.started[k] == PlanOf(cfg, k.1, s.started[k].batch); }
      }
    }
  }

  /** Every run, however long and however messages travel, keeps the invariant. */
  lemma {:induction false} RunKeeps(cfg: Config, actions: seq<Action>)
    ensures Inv(cfg, Run(cfg, actions)) && AllPlanned(cfg, Run(cfg, actions))
  {
    if actions != [] {
      var n := |actions| - 1;
      RunKeeps(cfg, actions[..n]);
      StepKeeps(cfg, Run(cfg, actions[..n]), actions[n]);
      StepPlans(cfg, Run(cfg, actions[..n]), actions[n]);
    }
  }
}
