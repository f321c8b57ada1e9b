/** The four phases of a cycle as functions of a producer's record and what it collected. */
module Phases {
  import opened Binary
  import opened Sorting
  import opened Merkle
  import opened Witness
  import opened Ledger
  import opened Construction
  import opened Rewards
  import Majority

  /** What every node of a network shares: the digest, the id-to-key parser and the rewards. */
  datatype Env = Env(hash: HashFn, keyOf: Id -> Hash, rewards: RewardConfig)

  datatype PhaseError =
    | InsufficientData(got: nat, required: nat)
    | NoMajority(highest: nat, threshold: nat)
    | NoFirstHash
    | CannotVote
    | NoPartialUpdate
    | NoLedgerUpdate
    | LedgerMismatch

  datatype Outcome<+T> = Ok(value: T) | Err(error: PhaseError)

  datatype Producer = Producer(
    id: Id,
    publicKey: Hash,
    cycle: U64,
    expectedProducers: nat,
    partialUpdate: Option<PartialUpdate>,
    ledgerUpdate: Option<LedgerUpdate>,
    firstHash: Option<Hash>,
    producerList: Option<seq<Id>>,
    voteList: Option<seq<Id>>,
    selected: seq<Id>)

  function NewProducer(id: Id, key: Hash, cycle: U64): Producer {
    Producer(id, key, cycle, 1, None, None, None, None, None, [])
  }

  /** Forget the previous cycle; the committee is kept sorted and duplicate-free. */
  function ResetForCycle(p: Producer, cycle: U64, committee: seq<Id>): Producer {
    var canonical := Canonical(committee);
    Producer(p.id, p.publicKey, cycle, Max(|canonical|, 1), None, None, None, None, None, canonical)
  }

  function Required(p: Producer): nat { p.expectedProducers / 2 + 1 }

  // ---------- construction ----------

  function Construct(env: Env, p: Producer, batch: seq<TransactionEntry>, now: U64): (Quantity, Producer) {
    var update := BuildPartial(env.hash, p.cycle, batch);
    var first := PartialHash(env.hash, update);
    (Quantity(first, p.cycle, p.id, now), p.(partialUpdate := Some(update), firstHash := Some(first)))
  }

  // ---------- campaigning ----------

  function FirstHashes(c: map<Id, Quantity>): map<Id, Hash> { map id | id in c :: c[id].firstHash }

  function MajorityHashes(c: map<Id, Candidate>): map<Id, Hash> { map id | id in c :: c[id].majorityHash }

  function LedgerHashes(c: map<Id, Vote>): map<Id, Hash> { map id | id in c :: c[id].ledgerHash }

  ghost function Campaign(env: Env, p: Producer, c: map<Id, Quantity>, required: nat,
                          now: U64): (Outcome<Candidate>, Producer) {
    match Majority.Count(FirstHashes(c), required)
    case TooFew(got) => (Err(InsufficientData(got, required)), p)
    case Split(highest) => (Err(NoMajority(highest, required)), p)
    case Agreed(h) =>
      var (candidate, next) := Nominate(env, p, Agreeing(p, Majority.Supporters(FirstHashes(c), h), h), h, now);
      (Ok(candidate), next)
  }

  /** The producers of the agreed digest; this producer counts itself if it built the same. */
  ghost function Agreeing(p: Producer, supporters: set<Id>, h: Hash): seq<Id> {
    Majority.Listing(supporters + if p.firstHash == Some(h) then {p.id} else {})
  }

  function Nominate(env: Env, p: Producer, list: seq<Id>, h: Hash, now: U64): (Candidate, Producer) {
    (Candidate(h, ListWitness(env.hash, list), p.cycle, p.id, now), p.(producerList := Some(list)))
  }

  // ---------- voting ----------

  /** The committee, or whoever agreed (and this producer) when no committee was given. */
  ghost function FinalList(p: Producer, agreeing: set<Id>): seq<Id> {
    var canonical := Canonical(p.selected);
    if canonical == [] then Majority.Listing(agreeing + {p.id}) else canonical
  }

  /** The ledger update: a function of the cycle, the partial update, the list and the rewards. */
  function BuildUpdate(env: Env, cycle: U64, update: PartialUpdate, list: seq<Id>): LedgerUpdate {
    LedgerUpdate(update, Compensation(env.keyOf, env.rewards, update.totalFees, list), cycle, list, list)
  }

  function UpdateHash(env: Env, u: LedgerUpdate): Hash { env.hash(EncUpdate(u)) }

  ghost function CastVote(env: Env, p: Producer, c: map<Id, Candidate>, required: nat,
                          now: U64): (Outcome<Vote>, Producer) {
    if p.firstHash.None? then (Err(NoFirstHash), p)
    else match Majority.Count(MajorityHashes(c), required)
      case TooFew(got) => (Err(InsufficientData(got, required)), p)
      case Split(highest) => (Err(NoMajority(highest, required)), p)
      case Agreed(h) =>
        if p.firstHash.value != h then (Err(CannotVote), p)
        else Ballot(env, p, FinalList(p, Majority.Supporters(MajorityHashes(c), h)), now)
  }

  /** The vote for the ledger update this producer builds on its own partial update. */
  function Ballot(env: Env, p: Producer, list: seq<Id>, now: U64): (Outcome<Vote>, Producer) {
    if p.partialUpdate.None? then (Err(NoPartialUpdate), p)
    else
      var lsu := BuildUpdate(env, p.cycle, p.partialUpdate.value, list);
      (Ok(Vote(UpdateHash(env, lsu), ListWitness(env.hash, list), p.cycle, p.id, now)),
       p.(ledgerUpdate := Some(lsu), voteList := Some(list)))
  }

  // ---------- synchronization ----------

  function AddressOf(h: Hash): Address { [1] + h[..20] }

  ghost function Synchronize(env: Env, p: Producer, c: map<Id, Vote>, required: nat, now: U64): Outcome<Output> {
    match Majority.Count(LedgerHashes(c), required)
    case TooFew(got) => Err(InsufficientData(got, required))
    case Split(highest) => Err(NoMajority(highest, required))
    case Agreed(h) =>
      if p.ledgerUpdate.None? then Err(NoLedgerUpdate)
      else if UpdateHash(env, p.ledgerUpdate.value) != h then Err(LedgerMismatch)
      else
        var list := if p.selected == []
          then Majority.Listing(Majority.Supporters(LedgerHashes(c), h) + {p.id}) else p.selected;
        Ok(Output(AddressOf(UpdateHash(env, p.ledgerUpdate.value)), ListWitness(env.hash, list), p.cycle, p.id, now))
  }
}
