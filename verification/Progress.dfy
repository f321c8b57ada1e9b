/** Runs that exist: producers that hear a quorum go on, so a majority sharing a batch finishes. */
module Progress {
  import opened Binary
  import opened Ledger
  import Majority
  import opened Phases
  import opened Network
  import opened Collectors
  import opened Steps
  import opened Protocol
  import opened Safety
  import opened Preservation

  ghost predicate Reachable(cfg: Config, s: System) { exists actions :: Run(cfg, actions) == s }

  lemma ReachableStep(cfg: Config, s: System, a: Action)
    requires Reachable(cfg, s)
    ensures Reachable(cfg, Step(cfg, s, a))
  {
    var actions :| Run(cfg, actions) == s;
    RunExtends(cfg, actions, a);
  }

  lemma RunExtends(cfg: Config, actions: seq<Action>, a: Action)
    ensures Run(cfg, actions + [a]) == Step(cfg, Run(cfg, actions), a)
  {
    assert (actions + [a])[..|actions|] == actions;
  }

  lemma ReachableKeeps(cfg: Config, s: System)
    requires Reachable(cfg, s)
    ensures Inv(cfg, s) && AllPlanned(cfg, s)
  {
    var actions :| Run(cfg, actions) == s;
    RunKeeps(cfg, actions);
  }

  lemma SynchronizeTaken(cfg: Config, u: System, id: Id, heard: seq<Envelope>, now: U64)
    requires CanSynchronize(u, id, heard)
    ensures Step(cfg, u, Synchronizing(id, heard, now)) == SynchronizeStep(cfg, u, id, heard, now)
  {}

  lemma ObserveTaken(cfg: Config, s: System, a: Action, t: System)
    requires a.Observing? && CanObserve(s, a.forOutputs, a.forUpdates)
    requires t == ObserveStep(cfg, s, a.cycle, a.forOutputs, a.forUpdates)
    ensures Step(cfg, s, a) == t
  {}

  // ---------- hearing every report of one digest ----------

  ghost function Wrap(kind: Kind, ms: set<Message>): (r: seq<Envelope>)
    ensures forall e :: e in r <==> e.kind == kind && e.body.Some? && e.body.value in ms
  {
    if ms == {} then []
    else
      var m :| m in ms;
      [Envelope(kind, Some(m))] + Wrap(kind, ms - {m})
  }

  ghost function Echoed(sent: set<Message>, round: Round, cycle: U64, digest: Octets): set<Message> {
    set m | m in sent && ReportOf(m).Some? && ReportOf(m).value.round == round &&
            ReportOf(m).value.cycle == cycle && ReportOf(m).value.digest == digest
  }

  function KindOf(round: Round): Kind {
    match round case First => QuantityKind case Second => CandidateKind case Third => VoteKind
  }

  ghost function Everything(sent: set<Message>, round: Round, cycle: U64, digest: Octets): (r: seq<Envelope>)
    ensures Delivered(sent, r)
  {
    Wrap(KindOf(round), Echoed(sent, round, cycle, digest))
  }

  lemma QuantitiesHeard(sent: set<Message>, cycle: U64, h: Octets)
    ensures var c := Collected(QuantityReader(), cycle, Everything(sent, First, cycle, h));
            c.Keys == Reporters(sent, First, cycle, h) && forall id :: id in c ==> c[id].firstHash == h
  {
    var heard := Everything(sent, First, cycle, h);
    var c := Collected(QuantityReader(), cycle, heard);
    forall id | id in c ensures id in Reporters(sent, First, cycle, h) && c[id].firstHash == h {
      CollectedSound(QuantityReader(), cycle, heard, id);
    }
    forall m | m in Echoed(sent, First, cycle, h) ensures ReportOf(m).value.id in c {
      CollectedComplete(QuantityReader(), cycle, heard, Envelope(QuantityKind, Some(m)), m.quantity);
    }
  }

  lemma CandidatesHeard(sent: set<Message>, cycle: U64, h: Octets)
    ensures var c := Collected(CandidateReader(), cycle, Everything(sent, Second, cycle, h));
            c.Keys == Reporters(sent, Second, cycle, h) && forall id :: id in c ==> c[id].majorityHash == h
  {
    var heard := Everything(sent, Second, cycle, h);
    var c := Collected(CandidateReader(), cycle, heard);
    forall id | id in c ensures id in Reporters(sent, Second, cycle, h) && c[id].majorityHash == h {
      CollectedSound(CandidateReader(), cycle, heard, id);
    }
    forall m | m in Echoed(sent, Second, cycle, h) ensures ReportOf(m).value.id in c {
      CollectedComplete(CandidateReader(), cycle, heard, Envelope(CandidateKind, Some(m)), m.candidate);
    }
  }

  lemma VotesHeard(sent: set<Message>, cycle: U64, h: Octets)
    ensures var c := Collected(VoteReader(), cycle, Everything(sent, Third, cycle, h));
            c.Keys == Reporters(sent, Third, cycle, h) && forall id :: id in c ==> c[id].ledgerHash == h
  {
    var heard := Everything(sent, Third, cycle, h);
    var c := Collected(VoteReader(), cycle, heard);
    forall id | id in c ensures id in Reporters(sent, Third, cycle, h) && c[id].ledgerHash == h {
      CollectedSound(VoteReader(), cycle, heard, id);
    }
    forall m | m in Echoed(sent, Third, cycle, h) ensures ReportOf(m).value.id in c {
      CollectedComplete(VoteReader(), cycle, heard, Envelope(VoteKind, Some(m)), m.vote);
    }
  }

  // ---------- each phase succeeds on a unanimous quorum ----------

  lemma QuantitiesCounted(cycle: U64, own: Quantity, sent: set<Message>, required: nat)
    requires own.cycle == cycle && QuantityMsg(own) in sent
    requires 0 < required <= |Reporters(sent, First, cycle, own.firstHash)|
    ensures var heard := Everything(sent, First, cycle, own.firstHash);
            var c := Collected(QuantityReader(), cycle, heard)[own.producerId := own];
            Majority.Count(FirstHashes(c), required) == Majority.Agreed(own.firstHash)
  {
    var h := own.firstHash;
    QuantitiesHeard(sent, cycle, h);
    assert ReportOf(QuantityMsg(own)) == Some(Report(First, cycle, own.producerId, h));
    assert own.producerId in Reporters(sent, First, cycle, h);
    var before := Collected(QuantityReader(), cycle, Everything(sent, First, cycle, h));
    var c := before[own.producerId := own];
    assert FirstHashes(c).Keys == before.Keys;
    Majority.Unanimous(FirstHashes(c), required, h);
  }

  lemma CampaignSucceeds(env: Env, p: Producer, own: Quantity, sent: set<Message>, now: U64)
    requires own.cycle == p.cycle && QuantityMsg(own) in sent
    requires |Reporters(sent, First, p.cycle, own.firstHash)| >= Required(p)
    ensures var r := CampaignHeard(env, p, own, Everything(sent, First, p.cycle, own.firstHash), now).0;
            r.Ok? && r.value.majorityHash == own.firstHash
  {
    QuantitiesCounted(p.cycle, own, sent, Required(p));
  }

  lemma CandidatesCounted(cycle: U64, own: Candidate, sent: set<Message>, required: nat)
    requires own.cycle == cycle && CandidateMsg(own) in sent
    requires 0 < required <= |Reporters(sent, Second, cycle, own.majorityHash)|
    ensures var heard := Everything(sent, Second, cycle, own.majorityHash);
            var c := Collected(CandidateReader(), cycle, heard)[own.producerId := own];
            Majority.Count(MajorityHashes(c), required) == Majority.Agreed(own.majorityHash)
  {
    var h := own.majorityHash;
    CandidatesHeard(sent, cycle, h);
    assert ReportOf(CandidateMsg(own)) == Some(Report(Second, cycle, own.producerId, h));
    assert own.producerId in Reporters(sent, Second, cycle, h);
    var before := Collected(CandidateReader(), cycle, Everything(sent, Second, cycle, h));
    var c := before[own.producerId := own];
    assert MajorityHashes(c).Keys == before.Keys;
    Majority.Unanimous(MajorityHashes(c), required, h);
  }

  lemma VoteSucceeds(env: Env, p: Producer, own: Candidate, sent: set<Message>, now: U64)
    requires own.cycle == p.cycle && CandidateMsg(own) in sent
    requires p.firstHash == Some(own.majorityHash) && p.partialUpdate.Some?
    requires |Reporters(sent, Second, p.cycle, own.majorityHash)| >= Required(p)
    ensures var r := VoteHeard(env, p, own, Everything(sent, Second, p.cycle, own.majorityHash), now).0;
            r.Ok?
  {
    CandidatesCounted(p.cycle, own, sent, Required(p));
  }

  lemma VotesCounted(cycle: U64, own: Vote, sent: set<Message>, required: nat)
    requires own.cycle == cycle && VoteMsg(own) in sent
    requires 0 < required <= |Reporters(sent, Third, cycle, own.ledgerHash)|
    ensures var heard := Everything(sent, Third, cycle, own.ledgerHash);
            var c := Collected(VoteReader(), cycle, heard)[own.producerId := own];
            Majority.Count(LedgerHashes(c), required) == Majority.Agreed(own.ledgerHash)
  {
    var h := own.ledgerHash;
    VotesHeard(sent, cycle, h);
    assert ReportOf(VoteMsg(own)) == Some(Report(Third, cycle, own.producerId, h));
    assert own.producerId in Reporters(sent, Third, cycle, h);
    var before := Collected(VoteReader(), cycle, Everything(sent, Third, cycle, h));
    var c := before[own.producerId := own];
    assert LedgerHashes(c).Keys == before.Keys;
    Majority.Unanimous(LedgerHashes(c), required, h);
  }

  lemma SynchronizeSucceeds(env: Env, p: Producer, own: Vote, sent: set<Message>, now: U64)
    requires own.cycle == p.cycle && VoteMsg(own) in sent
    requires p.ledgerUpdate.Some? && UpdateHash(env, p.ledgerUpdate.value) == own.ledgerHash
    requires |Reporters(sent, Third, p.cycle, own.ledgerHash)| >= Required(p)
    ensures var r := SynchronizeHeard(env, p, own, Everything(sent, Third, p.cycle, own.ledgerHash), now);
            r.Ok?
  {
    VotesCounted(p.cycle, own, sent, Required(p));
  }
}
