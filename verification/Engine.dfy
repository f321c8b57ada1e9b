/** The phase objects, the producer manager and the engine, updating their records in place. */
module Engine {
  import opened Binary
  import opened Sorting
  import opened Merkle
  import opened Witness
  import opened Ledger
  import opened Construction
  import opened Rewards
  import Majority
  import opened Phases
  import opened Network
  import opened Collectors
  import opened Steps
  import opened Observer

  class ConstructionPhase {
    var producer: Producer

    constructor (p: Producer)
      ensures producer == p
    {
      producer := p;
    }

    method Execute(env: Env, batch: seq<TransactionEntry>, now: U64) returns (quantity: Quantity)
      modifies this
      ensures (quantity, producer) == Construct(env, old(producer), batch, now)
    {
      var sorted := SortBy(batch, EntryOrder(env.hash));
      var root := ComputeMerkleRoot(env.hash, SignatureLeaves(env.hash, sorted));
      var update := PartialUpdate(sorted, root, TotalFees(sorted), producer.cycle);
      var first := PartialHash(env.hash, update);
      producer := producer.(partialUpdate := Some(update), firstHash := Some(first));
      quantity := Quantity(first, producer.cycle, producer.id, now);
    }
  }

  /** Adds `id` if asked to and it is missing, then sorts and removes repetitions. */
  method Include(list: seq<Id>, ghost members: set<Id>, joins: bool, id: Id) returns (r: seq<Id>)
    requires list == Majority.Listing(members)
    ensures r == Majority.Listing(members + if joins then {id} else {})
  {
    r := list;
    ElementsConcat(list, [id]);
    ElementsSingle(id);
    if joins && id !in r { r := r + [id]; }
    assert Elements(r) == members + if joins then {id} else {};
    CanonicalStrict(r);
    CanonicalElements(r);
    Majority.ListingUnique(Canonical(r));
    r := Canonical(r);
  }

  class CampaigningPhase {
    var producer: Producer
    var collected: map<Id, Quantity>

    constructor (p: Producer)
      ensures producer == p && collected == map[]
    {
      producer := p;
      collected := map[];
    }

    method AddQuantity(q: Quantity)
      modifies this
      ensures collected == old(collected)[q.producerId := q] && producer == old(producer)
    {
      collected := collected[q.producerId := q];
    }

    method Execute(env: Env, required: nat, now: U64) returns (r: Outcome<Candidate>)
      modifies this
      ensures (r, producer) == Campaign(env, old(producer), old(collected), required, now)
      ensures collected == old(collected)
    {
      var tally, list := Majority.CountReports(FirstHashes(collected), required);
      match tally
      case TooFew(got) => r := Err(InsufficientData(got, required));
      case Split(highest) => r := Err(NoMajority(highest, required));
      case Agreed(h) =>
        list := Include(list, Majority.Supporters(FirstHashes(collected), h),
                        producer.firstHash == Some(h), producer.id);
        var candidate := Nominate(env, h, list, now);
        r := Ok(candidate);
    }

    method Nominate(env: Env, h: Hash, list: seq<Id>, now: U64) returns (candidate: Candidate)
      modifies this
      ensures (candidate, producer) == Phases.Nominate(env, old(producer), list, h, now)
      ensures collected == old(collected)
    {
      var listHash := HashProducerList(env.hash, list);
      producer := producer.(producerList := Some(list));
      candidate := Candidate(h, listHash, producer.cycle, producer.id, now);
    }
  }

  class VotingPhase {
    var producer: Producer
    var collected: map<Id, Candidate>

    constructor (p: Producer)
      ensures producer == p && collected == map[]
    {
      producer := p;
      collected := map[];
    }

    method AddCandidate(c: Candidate)
      modifies this
      ensures collected == old(collected)[c.producerId := c] && producer == old(producer)
    {
      collected := collected[c.producerId := c];
    }

    method Execute(env: Env, required: nat, now: U64) returns (r: Outcome<Vote>)
      modifies this
      ensures (r, producer) == CastVote(env, old(producer), old(collected), required, now)
      ensures collected == old(collected)
    {
      if producer.firstHash.None? { return Err(NoFirstHash); }
      var tally, agreeing := Majority.CountReports(MajorityHashes(collected), required);
      match tally
      case TooFew(got) => r := Err(InsufficientData(got, required));
      case Split(highest) => r := Err(NoMajority(highest, required));
      case Agreed(h) =>
        if producer.firstHash.value != h { return Err(CannotVote); }
        var list := FinalProducerList(agreeing, Majority.Supporters(MajorityHashes(collected), h));
        r := Ballot(env, list, now);
    }

    method Ballot(env: Env, list: seq<Id>, now: U64) returns (r: Outcome<Vote>)
      modifies this
      ensures (r, producer) == Phases.Ballot(env, old(producer), list, now)
      ensures collected == old(collected)
    {
      if producer.partialUpdate.None? { return Err(NoPartialUpdate); }
      var lsu := FinalLedgerUpdate(env, producer.cycle, producer.partialUpdate.value, list);
      var listHash := HashProducerList(env.hash, list);
      producer := producer.(ledgerUpdate := Some(lsu), voteList := Some(list));
      r := Ok(Vote(UpdateHash(env, lsu), listHash, producer.cycle, producer.id, now));
    }

    method FinalProducerList(agreeing: seq<Id>, ghost members: set<Id>) returns (list: seq<Id>)
      requires agreeing == Majority.Listing(members)
      ensures list == FinalList(producer, members)
    {
      list := Canonical(producer.selected);
      if list == [] {
        list := Include(agreeing, members, true, producer.id);
      }
    }

    method FinalLedgerUpdate(env: Env, cycle: U64, update: PartialUpdate, list: seq<Id>) returns (lsu: LedgerUpdate)
      ensures lsu == BuildUpdate(env, cycle, update, list)
    {
      var compensation := CreateCompensationEntries(env.keyOf, env.rewards, update.totalFees, list);
      lsu := LedgerUpdate(update, compensation, cycle, list, list);
    }
  }

  class SynchronizationPhase {
    var producer: Producer
    var collected: map<Id, Vote>

    constructor (p: Producer)
      ensures producer == p && collected == map[]
    {
      producer := p;
      collected := map[];
    }

    method AddVote(v: Vote)
      modifies this
      ensures collected == old(collected)[v.producerId := v] && producer == old(producer)
    {
      collected := collected[v.producerId := v];
    }

    method Execute(env: Env, required: nat, now: U64) returns (r: Outcome<Output>)
      ensures r == Synchronize(env, producer, collected, required, now)
    {
      var tally, agreeing := Majority.CountReports(LedgerHashes(collected), required);
      match tally
      case TooFew(got) => r := Err(InsufficientData(got, required));
      case Split(highest) => r := Err(NoMajority(highest, required));
      case Agreed(h) =>
        var list := producer.selected;
        if list == [] {
          list := Include(agreeing, Majority.Supporters(LedgerHashes(collected), h), true, producer.id);
        }
        if producer.ledgerUpdate.None? { return Err(NoLedgerUpdate); }
        if UpdateHash(env, producer.ledgerUpdate.value) != h { return Err(LedgerMismatch); }
        var listHash := HashProducerList(env.hash, list);
        r := Ok(Output(AddressOf(h), listHash, producer.cycle, producer.id, now));
    }
  }

  /** Runs each phase on a copy of the record and writes the results back. */
  class ProducerManager {
    var producer: Producer
    const env: Env

    constructor (p: Producer, env: Env)
      ensures producer == p && this.env == env
    {
      producer := p;
      this.env := env;
    }

    method ResetForCycle(cycle: U64, committee: seq<Id>)
      modifies this
      ensures producer == Phases.ResetForCycle(old(producer), cycle, committee)
    {
      var canonical := Canonical(committee);
      producer := producer.(
        cycle := cycle,
        expectedProducers := Max(|canonical|, 1),
        selected := canonical,
        partialUpdate := None,
        ledgerUpdate := None,
        firstHash := None,
        producerList := None,
        voteList := None);
    }

    method ExecuteConstruction(batch: seq<TransactionEntry>, now: U64) returns (quantity: Quantity)
      modifies this
      ensures (quantity, producer) == Construct(env, old(producer), batch, now)
    {
      var phase := new ConstructionPhase(producer);
      quantity := phase.Execute(env, batch, now);
      producer := producer.(partialUpdate := phase.producer.partialUpdate, firstHash := phase.producer.firstHash);
    }

    method ExecuteCampaigning(quantities: seq<Quantity>, now: U64) returns (r: Outcome<Candidate>)
      modifies this
      ensures (r, producer) ==
                Campaign(env, old(producer), Latest(quantities, QuantityReader().idOf), Required(old(producer)), now)
    {
      var phase := new CampaigningPhase(producer);
      for i := 0 to |quantities|
        invariant phase.producer == old(producer) && producer == old(producer)
        invariant phase.collected == Latest(quantities[..i], QuantityReader().idOf)
      {
        assert quantities[..i + 1] == quantities[..i] + [quantities[i]];
        LatestStep(quantities[..i], quantities[i], QuantityReader().idOf);
        phase.AddQuantity(quantities[i]);
      }
      assert quantities[..|quantities|] == quantities;
      r := phase.Execute(env, Required(producer), now);
      if r.Ok? { producer := producer.(producerList := phase.producer.producerList); }
    }

    method ExecuteVoting(candidates: seq<Candidate>, now: U64) returns (r: Outcome<Vote>)
      modifies this
      ensures (r, producer) ==
                CastVote(env, old(producer), Latest(candidates, CandidateReader().idOf), Required(old(producer)), now)
    {
      var phase := new VotingPhase(producer);
      for i := 0 to |candidates|
        invariant phase.producer == old(producer) && producer == old(producer)
        invariant phase.collected == Latest(candidates[..i], CandidateReader().idOf)
      {
        assert candidates[..i + 1] == candidates[..i] + [candidates[i]];
        LatestStep(candidates[..i], candidates[i], CandidateReader().idOf);
        phase.AddCandidate(candidates[i]);
      }
      assert candidates[..|candidates|] == candidates;
      r := phase.Execute(env, Required(producer), now);
      if r.Ok? {
        producer := producer.(ledgerUpdate := phase.producer.ledgerUpdate, voteList := phase.producer.voteList);
      }
    }

    method ExecuteSynchronization(votes: seq<Vote>, now: U64) returns (r: Outcome<Output>)
      ensures r == Synchronize(env, producer, Latest(votes, VoteReader().idOf), Required(producer), now)
    {
      var phase := new SynchronizationPhase(producer);
      for i := 0 to |votes|
        invariant phase.producer == old(producer) && producer == old(producer)
        invariant phase.collected == Latest(votes[..i], VoteReader().idOf)
      {
        assert votes[..i + 1] == votes[..i] + [votes[i]];
        LatestStep(votes[..i], votes[i], VoteReader().idOf);
        phase.AddVote(votes[i]);
      }
      assert votes[..|votes|] == votes;
      r := phase.Execute(env, Required(producer), now);
    }
  }

  /** The engine: the envelopes that arrived ahead of their phase and, on a node that may produce,
      a producer manager. */
  class Engine {
    const env: Env
    const manager: ProducerManager?
    const queue: PendingEnvelopes
    var currentCycle: U64
    var selected: seq<Id>

    constructor (env: Env, manager: ProducerManager?, queue: PendingEnvelopes)
      ensures this.env == env && this.manager == manager && this.queue == queue && currentCycle == 0 && selected == []
    {
      this.env := env;
      this.manager := manager;
      this.queue := queue;
      currentCycle := 0;
      selected := [];
    }

    method CampaignStep(own: Quantity, inbound: Inbound, now: U64) returns (r: Outcome<Candidate>)
      requires manager != null
      modifies manager, queue
      ensures (r, manager.producer) == CampaignHeard(manager.env, old(manager.producer), own,
                                                     Window(old(queue.pending), QuantityKind, inbound), now)
      ensures queue.pending == Left(old(queue.pending), QuantityKind, inbound)
    {
      var collected := Collect(queue, QuantityReader(), manager.producer.cycle, inbound);
      CollectedKeyed(QuantityReader(), manager.producer.cycle, Window(old(queue.pending), QuantityKind, inbound));
      var all := WithOwn(collected, QuantityReader().idOf, own);
      r := manager.ExecuteCampaigning(all, now);
    }

    method VoteStep(own: Candidate, inbound: Inbound, now: U64) returns (r: Outcome<Vote>)
      requires manager != null
      modifies manager, queue
      ensures (r, manager.producer) == VoteHeard(manager.env, old(manager.producer), own,
                                                 Window(old(queue.pending), CandidateKind, inbound), now)
      ensures queue.pending == Left(old(queue.pending), CandidateKind, inbound)
    {
      var collected := Collect(queue, CandidateReader(), manager.producer.cycle, inbound);
      CollectedKeyed(CandidateReader(), manager.producer.cycle, Window(old(queue.pending), CandidateKind, inbound));
      var all := WithOwn(collected, CandidateReader().idOf, own);
      r := manager.ExecuteVoting(all, now);
    }

    method SynchronizeStep(own: Vote, inbound: Inbound, now: U64) returns (r: Outcome<Output>)
      requires manager != null
      modifies queue
      ensures r == SynchronizeHeard(manager.env, manager.producer, own,
                                    Window(old(queue.pending), VoteKind, inbound), now)
      ensures queue.pending == Left(old(queue.pending), VoteKind, inbound)
    {
      var collected := Collect(queue, VoteReader(), manager.producer.cycle, inbound);
      CollectedKeyed(VoteReader(), manager.producer.cycle, Window(old(queue.pending), VoteKind, inbound));
      var all := WithOwn(collected, VoteReader().idOf, own);
      r := manager.ExecuteSynchronization(all, now);
    }

    /** The producer path of one cycle. */
    method RunFourPhaseConsensus(batch: seq<TransactionEntry>, inbound: (Inbound, Inbound, Inbound),
                                 now: (U64, U64, U64, U64))
      returns (r: Outcome<Option<LedgerUpdate>>)
      requires manager != null
      modifies manager, queue
      ensures r == RunCycle(manager.env, old(manager.producer), batch, Windows(old(queue.pending), inbound), now)
    {
      var quantity := manager.ExecuteConstruction(batch, now.0);
      var campaign := CampaignStep(quantity, inbound.0, now.1);
      if campaign.Err? { return Err(campaign.error); }
      var ballot := VoteStep(campaign.value, inbound.1, now.2);
      if ballot.Err? { return Err(ballot.error); }
      var output := SynchronizeStep(ballot.value, inbound.2, now.3);
      if output.Err? { return Err(output.error); }
      r := Ok(manager.producer.ledgerUpdate);
    }

    /** The observer path: nothing of this node's own goes in. */
    method ObserveConsensus(inbound: Inbound) returns (r: Option<LedgerUpdate>)
      modifies queue
      ensures r == Observed(env, selected, currentCycle,
                            Window(old(queue.pending), OutputKind, inbound),
                            Window(OfKind(old(queue.pending), OutputKind, false), SyncKind, inbound))
      ensures queue.pending == LeftByBoth(old(queue.pending), OutputKind, SyncKind, inbound)
    {
      var outputs, broadcasts := CollectForObserver(queue, currentCycle, inbound);
      r := Decide(env, selected, outputs, broadcasts);
    }

    /** One cycle: a selected producer takes part, any other node observes, on its own record or
        none, which it then leaves as it was. */
    method StartCycle(cycle: U64, committee: seq<Id>, batch: seq<TransactionEntry>,
                      inbound: (Inbound, Inbound, Inbound), observed: Inbound, now: (U64, U64, U64, U64))
      returns (r: Outcome<Option<LedgerUpdate>>)
      modifies this, manager, queue
      ensures currentCycle == cycle && selected == committee
      ensures manager != null && old(manager.producer).id in committee ==>
                r == RunCycle(manager.env, Phases.ResetForCycle(old(manager.producer), cycle, committee), batch,
                              Windows(old(queue.pending), inbound), now)
      ensures !(manager != null && old(manager.producer).id in committee) ==>
                && r == Ok(Observed(env, committee, cycle,
                                    Window(old(queue.pending), OutputKind, observed),
                                    Window(OfKind(old(queue.pending), OutputKind, false), SyncKind, observed)))
                && (manager != null ==> manager.producer == old(manager.producer))
    {
      currentCycle, selected := cycle, committee;
      if manager != null && manager.producer.id in committee {
        manager.ResetForCycle(cycle, committee);
        r := RunFourPhaseConsensus(batch, inbound, now);
      } else {
        var seen := ObserveConsensus(observed);
        r := Ok(seen);
      }
    }
  }
}
