/** What each phase says and why it refuses, in terms of who reported what. */
module PhaseLaws {
  import opened Binary
  import opened Sorting
  import opened Witness
  import opened Ledger
  import opened Construction
  import opened Rewards
  import Majority
  import opened Phases
  import opened Network
  import opened Collectors
  import opened Steps

  // ---------- counting ----------

  /** No digest has more than `most` supporters, and some digest has that many if anyone reported. */
  ghost predicate IsMost(c: Majority.Reports, most: nat) {
    && (forall h :: |Majority.Supporters(c, h)| <= most)
    && (c != map[] ==> exists h :: h in c.Values && |Majority.Supporters(c, h)| == most)
  }

  lemma PluralityIsMost(c: Majority.Reports, p: Octets)
    requires Majority.IsPlurality(c, p)
    ensures IsMost(c, |Majority.Supporters(c, p)|)
  {
    forall h ensures |Majority.Supporters(c, h)| <= |Majority.Supporters(c, p)| {
      if h in c.Values {
        assert Majority.Outranks(c, p, h);
      } else {
        assert Majority.Supporters(c, h) == {};
      }
    }
  }

  /** Too few only if fewer reported than needed; split only if enough did and no digest has enough
      supporters; agreed on a digest with enough, and with the most. */
  lemma CountExplained(c: Majority.Reports, required: nat)
    requires required > 0
    ensures match Majority.Count(c, required)
            case TooFew(got) => got == |c| < required
            case Split(highest) => |c| >= required > highest && IsMost(c, highest)
            case Agreed(h) => |Majority.Supporters(c, h)| >= required && IsMost(c, |Majority.Supporters(c, h)|)
  {
    if |c| >= required {
      var p := Majority.Plurality(c);
      PluralityIsMost(c, p);
    }
  }

  /** The error of a count, if it is one. */
  ghost predicate CountFails(c: Majority.Reports, required: nat, e: PhaseError) {
    match e
    case InsufficientData(got, need) => got == |c| < need == required
    case NoMajority(highest, threshold) => |c| >= threshold == required > highest && IsMost(c, highest)
    case _ => false
  }

  // ---------- the four phases ----------

  /** The first message reports the digest of the partial update built from the whole batch. */
  lemma ConstructionSays(env: Env, p: Producer, batch: seq<TransactionEntry>, now: U64)
    ensures var (q, next) := Construct(env, p, batch, now);
            && q.producerId == p.id && q.cycle == p.cycle && q.timestamp == now
            && next == p.(partialUpdate := next.partialUpdate, firstHash := Some(q.firstHash))
            && next.partialUpdate.Some? && q.firstHash == env.hash(EncPartial(next.partialUpdate.value))
            && multiset(next.partialUpdate.value.entries) == multiset(batch)
            && next.partialUpdate.value.timestamp == p.cycle
  {
    var sorted := SortBy(batch, EntryOrder(env.hash));
    assert multiset(sorted) == multiset(batch);
  }

  /** A candidate names the most supported digest and the very producers behind it. */
  lemma CampaignSays(env: Env, p: Producer, c: map<Id, Quantity>, required: nat, now: U64, list: seq<Id>)
    requires required > 0
    ensures var (r, next) := Campaign(env, p, c, required, now);
            match r
            case Err(e) => CountFails(FirstHashes(c), required, e) && next == p
            case Ok(m) =>
              var behind := Majority.Supporters(FirstHashes(c), m.majorityHash) +
                              (if p.firstHash == Some(m.majorityHash) then {p.id} else {});
              && m.producerId == p.id && m.cycle == p.cycle && m.timestamp == now
              && |Majority.Supporters(FirstHashes(c), m.majorityHash)| >= required
              && IsMost(FirstHashes(c), |Majority.Supporters(FirstHashes(c), m.majorityHash)|)
              && (Elements(list) == behind ==> m.listHash == ListWitness(env.hash, list))
              && next == p.(producerList := next.producerList) && next.producerList.Some?
              && Elements(next.producerList.value) == behind && StrictlyIncreasing(next.producerList.value)
  {
    CountExplained(FirstHashes(c), required);
    var (r, next) := Campaign(env, p, c, required, now);
    if r.Ok? && Elements(list) == Elements(next.producerList.value) {
      WitnessIgnoresOrderAndRepetition(env.hash, list, next.producerList.value);
    }
  }

  /** Whose update a vote is for: the committee if there is one, or the agreeing producers. */
  ghost function Behind(p: Producer, supporters: set<Id>): set<Id> {
    if p.selected == [] then supporters + {p.id} else Elements(p.selected)
  }

  lemma FinalListIs(p: Producer, supporters: set<Id>)
    ensures Elements(FinalList(p, supporters)) == Behind(p, supporters) && StrictlyIncreasing(FinalList(p, supporters))
    ensures FinalList(p, supporters) != []
  {
    CanonicalMembers(p.selected);
    CanonicalElements(p.selected);
    CanonicalStrict(p.selected);
    if p.selected == [] { assert p.id in Elements(FinalList(p, supporters)); }
  }

  /** A vote is cast only for the update of the own partial update, and only when its digest is the
      most supported with enough candidates. */
  lemma VotingSays(env: Env, p: Producer, c: map<Id, Candidate>, required: nat, now: U64, list: seq<Id>)
    requires required > 0
    ensures var (r, next) := CastVote(env, p, c, required, now);
            match r
            case Err(NoFirstHash) => p.firstHash.None? && next == p
            case Err(CannotVote) =>
              && p.firstHash.Some? && next == p
              && exists h :: Majority.Count(MajorityHashes(c), required) == Majority.Agreed(h) && h != p.firstHash.value
            case Err(NoPartialUpdate) => p.firstHash.Some? && p.partialUpdate.None? && next == p
            case Err(e) => p.firstHash.Some? && CountFails(MajorityHashes(c), required, e) && next == p
            case Ok(v) =>
              && p.firstHash.Some? && p.partialUpdate.Some? && next.ledgerUpdate.Some? && next.voteList.Some?
              && v.producerId == p.id && v.cycle == p.cycle && v.timestamp == now
              && |Majority.Supporters(MajorityHashes(c), p.firstHash.value)| >= required
              && next == p.(ledgerUpdate := next.ledgerUpdate, voteList := next.voteList)
              && v.ledgerHash == env.hash(EncUpdate(next.ledgerUpdate.value))
              && next.ledgerUpdate.value.voteList == next.voteList.value
              && var behind := Behind(p, Majority.Supporters(MajorityHashes(c), p.firstHash.value));
                 Elements(next.voteList.value) == behind && StrictlyIncreasing(next.voteList.value) &&
                 (Elements(list) == behind ==> v.listHash == ListWitness(env.hash, list))
  {
    CountExplained(MajorityHashes(c), required);
    if p.firstHash.Some? {
      var supporters := Majority.Supporters(MajorityHashes(c), p.firstHash.value);
      FinalListIs(p, supporters);
      if Elements(list) == Behind(p, supporters) {
        WitnessIgnoresOrderAndRepetition(env.hash, list, FinalList(p, supporters));
      }
    }
  }

  /** An output is published only when the own update's hash is the one agreed on. */
  lemma SynchronizationSays(env: Env, p: Producer, c: map<Id, Vote>, required: nat, now: U64)
    requires required > 0
    ensures match Synchronize(env, p, c, required, now)
            case Err(NoLedgerUpdate) => p.ledgerUpdate.None?
            case Err(LedgerMismatch) =>
              && p.ledgerUpdate.Some?
              && exists h :: Majority.Count(LedgerHashes(c), required) == Majority.Agreed(h) &&
                             h != env.hash(EncUpdate(p.ledgerUpdate.value))
            case Err(e) => CountFails(LedgerHashes(c), required, e)
            case Ok(o) =>
              && p.ledgerUpdate.Some?
              && |Majority.Supporters(LedgerHashes(c), env.hash(EncUpdate(p.ledgerUpdate.value)))| >= required
              && o.producerId == p.id && o.cycle == p.cycle && o.timestamp == now
  {
    CountExplained(LedgerHashes(c), required);
    match Majority.Count(LedgerHashes(c), required)
    case TooFew(_) =>
    case Split(_) =>
    case Agreed(h) =>
      if p.ledgerUpdate.Some? && env.hash(EncUpdate(p.ledgerUpdate.value)) == h {
        assert |Majority.Supporters(LedgerHashes(c), h)| >= required;
      }
  }

  lemma AddressParts(h: Hash)
    ensures AddressOf(h)[0] == 1 && AddressOf(h)[1..] == h[..20]
  {}

  /** Its address is the scheme byte and the first 20 bytes of that hash, and its witness is of the
      committee, or of the voters without one. */
  lemma OutputNames(env: Env, p: Producer, c: map<Id, Vote>, required: nat, now: U64, h: Hash, list: seq<Id>)
    requires Synchronize(env, p, c, required, now).Ok? && p.ledgerUpdate.Some?
    requires h == env.hash(EncUpdate(p.ledgerUpdate.value))
    requires Elements(list) == Behind(p, Majority.Supporters(LedgerHashes(c), h))
    ensures var o := Synchronize(env, p, c, required, now).value;
            o.address[0] == 1 && o.address[1..] == h[..20] && o.listHash == ListWitness(env.hash, list)
  {
    AddressParts(h);
    var supporters := Majority.Supporters(LedgerHashes(c), h);
    var named := if p.selected == [] then Majority.Listing(supporters + {p.id}) else p.selected;
    WitnessIgnoresOrderAndRepetition(env.hash, list, named);
    OutputIs(env, p, c, required, now, h);
  }

  lemma OutputIs(env: Env, p: Producer, c: map<Id, Vote>, required: nat, now: U64, h: Hash)
    requires Synchronize(env, p, c, required, now).Ok? && p.ledgerUpdate.Some?
    requires h == env.hash(EncUpdate(p.ledgerUpdate.value))
    ensures var o := Synchronize(env, p, c, required, now).value;
            var named := if p.selected == [] then Majority.Listing(Majority.Supporters(LedgerHashes(c), h) + {p.id})
                         else p.selected;
            o.address == AddressOf(h) && o.listHash == ListWitness(env.hash, named)
  {
    match Majority.Count(LedgerHashes(c), required)
    case TooFew(_) =>
    case Split(_) =>
    case Agreed(k) => assert k == h;
  }

  // ---------- the record ----------

  /** A reset forgets everything but who the producer is. */
  lemma ResetForgets(p: Producer, q: Producer, cycle: U64, committee: seq<Id>)
    requires p.id == q.id && p.publicKey == q.publicKey
    ensures ResetForCycle(p, cycle, committee) == ResetForCycle(q, cycle, committee)
  {}

  /** The threshold is the least strict majority of the distinct committee members, one without any. */
  lemma ThresholdIsMajority(p: Producer, cycle: U64, committee: seq<Id>)
    ensures var n, r := |Elements(committee)|, Required(ResetForCycle(p, cycle, committee));
            if committee == [] then r == 1 else 2 * r > n && 2 * (r - 1) <= n
  {
    CanonicalStrict(committee);
    CanonicalElements(committee);
    CanonicalMembers(committee);
    DistinctCardinality(Canonical(committee));
  }

  // ---------- what the update pays ----------

  /** Every id of the list is paid, in its order, under its own key, and together they get exactly
      the pool of the update's own fees. */
  ghost predicate PaysExactly(env: Env, u: LedgerUpdate) {
    var list, paid := u.producerList, u.compensation;
    && |paid| == |list|
    && TotalPaid(paid) == ProducerPool(env.rewards, u.partialUpdate.totalFees)
    && (forall i :: 0 <= i < |list| ==> paid[i].producerId == list[i] && paid[i].publicKey == env.keyOf(list[i]))
    && (forall i, j :: 0 <= i < j < |list| ==> paid[j].amount <= paid[i].amount <= paid[j].amount + 1)
  }

  lemma BuiltUpdatePays(env: Env, cycle: U64, update: PartialUpdate, list: seq<Id>)
    requires list != [] && StrictlyIncreasing(list)
    ensures var u := BuildUpdate(env, cycle, update, list);
            && u.partialUpdate == update && u.cycle == cycle && u.producerList == list && u.voteList == list
            && PaysExactly(env, u)
  {
    RewardsConserved(env.keyOf, env.rewards, update.totalFees, list);
    StrictIsSorted(list);
    SortOfSorted(list, Leq);
  }

  lemma StrictIsSorted(list: seq<Id>)
    requires StrictlyIncreasing(list)
    ensures SortedBy(list, Leq)
  {
    forall i, j | 0 <= i < j < |list| ensures Leq(list[i], list[j]) { assert Less(list[i], list[j]); }
  }

  // ---------- a committee of one ----------

  /** Nobody else was heard; whatever was said in the own name is replaced by the own message. */
  lemma OnlyOwn<M>(r: Reader<M>, cycle: U64, heard: seq<Envelope>, own: M)
    requires Collected(r, cycle, heard).Keys <= {r.idOf(own)}
    ensures Collected(r, cycle, heard)[r.idOf(own) := own] == map[r.idOf(own) := own]
  {}

  lemma OneReport(c: Majority.Reports, id: Id, h: Hash)
    requires c.Keys == {id} && c[id] == h
    ensures Majority.Count(c, 1) == Majority.Agreed(h)
  {
    assert |c| == |c.Keys| == 1;
    Majority.Unanimous(c, 1, h);
  }

  lemma LoneCampaign(env: Env, p: Producer, q: Quantity, heard: seq<Envelope>, now: U64)
    requires Required(p) == 1 && q.producerId == p.id && Collected(QuantityReader(), p.cycle, heard).Keys <= {p.id}
    ensures var (r, next) := CampaignHeard(env, p, q, heard, now);
            && r.Ok? && r.value.majorityHash == q.firstHash && r.value.producerId == p.id
            && next == p.(producerList := next.producerList)
  {
    OnlyOwn(QuantityReader(), p.cycle, heard, q);
    OneReport(FirstHashes(map[p.id := q]), p.id, q.firstHash);
  }

  lemma LoneVote(env: Env, p: Producer, m: Candidate, heard: seq<Envelope>, now: U64)
    requires Required(p) == 1 && m.producerId == p.id && Collected(CandidateReader(), p.cycle, heard).Keys <= {p.id}
    requires p.firstHash == Some(m.majorityHash) && p.partialUpdate.Some? && p.selected == [p.id]
    ensures var (r, next) := VoteHeard(env, p, m, heard, now);
            var u := BuildUpdate(env, p.cycle, p.partialUpdate.value, [p.id]);
            && r.Ok? && r.value.producerId == p.id && r.value.ledgerHash == UpdateHash(env, u)
            && next == p.(ledgerUpdate := Some(u), voteList := next.voteList)
  {
    OnlyOwn(CandidateReader(), p.cycle, heard, m);
    OneReport(MajorityHashes(map[p.id := m]), p.id, m.majorityHash);
    assert StrictlyIncreasing([p.id]);
    CanonicalOfStrict([p.id]);
  }

  lemma LoneSynchronize(env: Env, p: Producer, v: Vote, heard: seq<Envelope>, now: U64)
    requires Required(p) == 1 && v.producerId == p.id && Collected(VoteReader(), p.cycle, heard).Keys <= {p.id}
    requires p.ledgerUpdate.Some? && v.ledgerHash == UpdateHash(env, p.ledgerUpdate.value)
    ensures SynchronizeHeard(env, p, v, heard, now).Ok?
  {
    OnlyOwn(VoteReader(), p.cycle, heard, v);
    OneReport(LedgerHashes(map[p.id := v]), p.id, v.ledgerHash);
  }

  /** A producer that is the whole committee and hears nobody else counts itself in every phase and
      returns the update of its batch. */
  lemma LoneProducerFinishes(env: Env, p: Producer, cycle: U64, batch: seq<TransactionEntry>,
                             heard: (seq<Envelope>, seq<Envelope>, seq<Envelope>), now: (U64, U64, U64, U64))
    requires Collected(QuantityReader(), cycle, heard.0).Keys <= {p.id}
    requires Collected(CandidateReader(), cycle, heard.1).Keys <= {p.id}
    requires Collected(VoteReader(), cycle, heard.2).Keys <= {p.id}
    ensures RunCycle(env, ResetForCycle(p, cycle, [p.id]), batch, heard, now) ==
              Ok(Some(BuildUpdate(env, cycle, BuildPartial(env.hash, cycle, batch), [p.id])))
  {
    var reset := ResetForCycle(p, cycle, [p.id]);
    assert StrictlyIncreasing([p.id]);
    CanonicalOfStrict([p.id]);
    var (q, p1) := Construct(env, reset, batch, now.0);
    LoneCampaign(env, p1, q, heard.0, now.1);
    var (m, p2) := CampaignHeard(env, p1, q, heard.0, now.1);
    LoneVote(env, p2, m.value, heard.1, now.2);
    var (v, p3) := VoteHeard(env, p2, m.value, heard.1, now.2);
    LoneSynchronize(env, p3, v.value, heard.2, now.3);
  }
}
