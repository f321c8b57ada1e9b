/** Ledger state updates, the messages of the four phases, and their serialized form. */
module Ledger {
  import opened Binary
  import opened Codec

  datatype TransactionEntry = TransactionEntry(publicKey: Hash, amount: I64, signature: Octets)

  datatype PartialUpdate = PartialUpdate(
    entries: seq<TransactionEntry>,
    signaturesHash: Hash,
    totalFees: U64,
    timestamp: U64)

  datatype CompensationEntry = CompensationEntry(producerId: Id, publicKey: Hash, amount: U64)

  datatype LedgerUpdate = LedgerUpdate(
    partialUpdate: PartialUpdate,
    compensation: seq<CompensationEntry>,
    cycle: U64,
    producerList: seq<Id>,
    voteList: seq<Id>)

  datatype RewardConfig = RewardConfig(
    blockReward: U64,
    feeToRewardPoolBps: U16,
    producerSetRewardBps: U16,
    waitingPoolRewardBps: U16)

  datatype Quantity = Quantity(firstHash: Hash, cycle: U64, producerId: Id, timestamp: U64)

  datatype Candidate = Candidate(majorityHash: Hash, listHash: Hash, cycle: U64, producerId: Id, timestamp: U64)

  datatype Vote = Vote(ledgerHash: Hash, listHash: Hash, cycle: U64, producerId: Id, timestamp: U64)

  /** The 21-byte content address: a scheme byte and 20 bytes of digest. */
  type Address = a: Octets | |a| == 21 witness Zeros(21)

  datatype Output = Output(address: Address, listHash: Hash, cycle: U64, producerId: Id, timestamp: U64)

  datatype LsuBroadcast = LsuBroadcast(lsu: LedgerUpdate, cycle: U64, producerId: Id)

  // ---------- serialization, field by field ----------

  function EncEntry(e: TransactionEntry): Octets {
    EncHash(e.publicKey) + (EncI64(e.amount) + EncBytes(e.signature))
  }

  function DecEntry(l: Limits, b: Octets): Parsed<TransactionEntry> {
    match DecHash(b)
    case Failed => Failed
    case Parsed(key, b1) =>
      match DecI64(b1)
      case Failed => Failed
      case Parsed(amount, b2) =>
        match DecBytes(l.items, b2)
        case Failed => Failed
        case Parsed(sig, b3) => Parsed(TransactionEntry(key, amount, sig), b3)
  }

  function EntryDecoder(l: Limits): Decoder<TransactionEntry> { b => DecEntry(l, b) }

  function EncPartial(p: PartialUpdate): Octets {
    EncVec(EncEntry, p.entries) + (EncHash(p.signaturesHash) + (EncU64(p.totalFees) + EncU64(p.timestamp)))
  }

  function DecPartial(l: Limits, b: Octets): Parsed<PartialUpdate> {
    match DecVec(EntryDecoder(l), l.items, b)
    case Failed => Failed
    case Parsed(entries, b1) =>
      match DecHash(b1)
      case Failed => Failed
      case Parsed(sigs, b2) =>
        match DecU64(b2)
        case Failed => Failed
        case Parsed(fees, b3) =>
          match DecU64(b3)
          case Failed => Failed
          case Parsed(time, b4) => Parsed(PartialUpdate(entries, sigs, fees, time), b4)
  }

  function EncCompensation(c: CompensationEntry): Octets {
    EncText(c.producerId) + (EncHash(c.publicKey) + EncU64(c.amount))
  }

  function DecCompensation(l: Limits, b: Octets): Parsed<CompensationEntry> {
    match DecText(l, b)
    case Failed => Failed
    case Parsed(id, b1) =>
      match DecHash(b1)
      case Failed => Failed
      case Parsed(key, b2) =>
        match DecU64(b2)
        case Failed => Failed
        case Parsed(amount, b3) => Parsed(CompensationEntry(id, key, amount), b3)
  }

  function CompensationDecoder(l: Limits): Decoder<CompensationEntry> { b => DecCompensation(l, b) }

  function TextDecoder(l: Limits): Decoder<Octets> { b => DecText(l, b) }

  function EncUpdate(u: LedgerUpdate): Octets {
    EncPartial(u.partialUpdate) +
    (EncVec(EncCompensation, u.compensation) +
     (EncU64(u.cycle) + (EncVec(EncText, u.producerList) + EncVec(EncText, u.voteList))))
  }

  function DecUpdate(l: Limits, b: Octets): Parsed<LedgerUpdate> {
    match DecPartial(l, b)
    case Failed => Failed
    case Parsed(p, b1) =>
      match DecVec(CompensationDecoder(l), l.items, b1)
      case Failed => Failed
      case Parsed(comp, b2) =>
        match DecU64(b2)
        case Failed => Failed
        case Parsed(cycle, b3) =>
          match DecVec(TextDecoder(l), l.items, b3)
          case Failed => Failed
          case Parsed(producers, b4) =>
            match DecVec(TextDecoder(l), l.items, b4)
            case Failed => Failed
            case Parsed(votes, b5) => Parsed(LedgerUpdate(p, comp, cycle, producers, votes), b5)
  }

  // ---------- what fits the length fields, and reading back ----------

  ghost predicate PartialFits(l: Limits, p: PartialUpdate) {
    && |p.entries| <= l.items
    && forall i :: 0 <= i < |p.entries| ==> |p.entries[i].signature| <= l.items
  }

  ghost predicate TextsFit(l: Limits, ids: seq<Id>) {
    |ids| <= l.items && forall i :: 0 <= i < |ids| ==> TextFits(l, ids[i])
  }

  ghost predicate UpdateFits(l: Limits, u: LedgerUpdate) {
    && PartialFits(l, u.partialUpdate)
    && |u.compensation| <= l.items
    && (forall i :: 0 <= i < |u.compensation| ==> TextFits(l, u.compensation[i].producerId))
    && TextsFit(l, u.producerList) && TextsFit(l, u.voteList)
  }

  lemma ReadsEntry(l: Limits, e: TransactionEntry)
    requires |e.signature| <= l.items
    ensures Reads(EncEntry, EntryDecoder(l), e)
  {
    forall rest: Octets ensures DecEntry(l, EncEntry(e) + rest) == Parsed(e, rest) {
      ReadsEntryBefore(l, e, rest);
    }
  }

  lemma ReadsEntryBefore(l: Limits, e: TransactionEntry, rest: Octets)
    requires |e.signature| <= l.items
    ensures DecEntry(l, EncEntry(e) + rest) == Parsed(e, rest)
  {
    var b2 := EncBytes(e.signature) + rest;
    var b1 := EncI64(e.amount) + b2;
    Regroup3(EncHash(e.publicKey), EncI64(e.amount), EncBytes(e.signature), rest);
    ReadsHash(e.publicKey, b1);
    ReadsI64(e.amount, b2);
    ReadsBytes(l.items, e.signature, rest);
  }

  lemma ReadsPartial(l: Limits, p: PartialUpdate, rest: Octets)
    requires PartialFits(l, p)
    ensures DecPartial(l, EncPartial(p) + rest) == Parsed(p, rest)
  {
    forall i | 0 <= i < |p.entries| ensures Reads(EncEntry, EntryDecoder(l), p.entries[i]) {
      ReadsEntry(l, p.entries[i]);
    }
    var b3 := EncU64(p.timestamp) + rest;
    var b2 := EncU64(p.totalFees) + b3;
    var b1 := EncHash(p.signaturesHash) + b2;
    Regroup4(EncVec(EncEntry, p.entries), EncHash(p.signaturesHash), EncU64(p.totalFees), EncU64(p.timestamp), rest);
    ReadsVec(EncEntry, EntryDecoder(l), l.items, p.entries, b1);
    ReadsHash(p.signaturesHash, b2);
    ReadsU64(p.totalFees, b3);
    ReadsU64(p.timestamp, rest);
  }

  lemma ReadsCompensation(l: Limits, c: CompensationEntry)
    requires TextFits(l, c.producerId)
    ensures Reads(EncCompensation, CompensationDecoder(l), c)
  {
    forall rest: Octets ensures DecCompensation(l, EncCompensation(c) + rest) == Parsed(c, rest) {
      ReadsCompensationBefore(l, c, rest);
    }
  }

  lemma ReadsCompensationBefore(l: Limits, c: CompensationEntry, rest: Octets)
    requires TextFits(l, c.producerId)
    ensures DecCompensation(l, EncCompensation(c) + rest) == Parsed(c, rest)
  {
    var b2 := EncU64(c.amount) + rest;
    var b1 := EncHash(c.publicKey) + b2;
    Regroup3(EncText(c.producerId), EncHash(c.publicKey), EncU64(c.amount), rest);
    ReadsText(l, c.producerId, b1);
    ReadsHash(c.publicKey, b2);
    ReadsU64(c.amount, rest);
  }

  lemma ReadsIds(l: Limits, ids: seq<Id>, rest: Octets)
    requires TextsFit(l, ids)
    ensures DecVec(TextDecoder(l), l.items, EncVec(EncText, ids) + rest) == Parsed(ids, rest)
  {
    forall i | 0 <= i < |ids| ensures Reads(EncText, TextDecoder(l), ids[i]) {
      forall r: Octets ensures DecText(l, EncText(ids[i]) + r) == Parsed(ids[i], r) {
        ReadsText(l, ids[i], r);
      }
    }
    ReadsVec(EncText, TextDecoder(l), l.items, ids, rest);
  }

  /** Decoding a serialized update returns it, whatever follows, within the reader's limits. */
  lemma ReadsUpdate(l: Limits, u: LedgerUpdate, rest: Octets)
    requires UpdateFits(l, u)
    ensures DecUpdate(l, EncUpdate(u) + rest) == Parsed(u, rest)
  {
    forall i | 0 <= i < |u.compensation| ensures Reads(EncCompensation, CompensationDecoder(l), u.compensation[i]) {
      ReadsCompensation(l, u.compensation[i]);
    }
    var b4 := EncVec(EncText, u.voteList) + rest;
    var b3 := EncVec(EncText, u.producerList) + b4;
    var b2 := EncU64(u.cycle) + b3;
    var b1 := EncVec(EncCompensation, u.compensation) + b2;
    Regroup5(EncPartial(u.partialUpdate), EncVec(EncCompensation, u.compensation), EncU64(u.cycle),
            EncVec(EncText, u.producerList), EncVec(EncText, u.voteList), rest);
    ReadsPartial(l, u.partialUpdate, b1);
    ReadsVec(EncCompensation, CompensationDecoder(l), l.items, u.compensation, b2);
    ReadsU64(u.cycle, b3);
    ReadsIds(l, u.producerList, b4);
    ReadsIds(l, u.voteList, rest);
  }

  /** The serialization that is hashed is injective as long as lengths fit their u32 field. */
  lemma UpdateBytesInjective(u: LedgerUpdate, v: LedgerUpdate)
    requires UpdateFits(FIELD, u) && UpdateFits(FIELD, v)
    requires EncUpdate(u) == EncUpdate(v)
    ensures u == v
  {
    ReadsUpdate(FIELD, u, []);
    ReadsUpdate(FIELD, v, []);
    assert EncUpdate(u) + [] == EncUpdate(v) + [];
  }

  lemma PartialBytesInjective(p: PartialUpdate, q: PartialUpdate)
    requires PartialFits(FIELD, p) && PartialFits(FIELD, q)
    requires EncPartial(p) == EncPartial(q)
    ensures p == q
  {
    ReadsPartial(FIELD, p, []);
    ReadsPartial(FIELD, q, []);
    assert EncPartial(p) + [] == EncPartial(q) + [];
  }

  // ---------- what the bytes look like ----------

  /** The order of the fields, on an update with one entry, one payment and one id in each list. */
  lemma UpdateLayout(key: Hash, root: Hash, paid: Hash)
    ensures var e := TransactionEntry(key, -1, [9]);
            EncEntry(e) == key + ([255, 255, 255, 255, 255, 255, 255, 255] + [1, 0, 0, 0, 9])
    ensures var e := TransactionEntry(key, -1, [9]);
            EncPartial(PartialUpdate([e], root, 5, 7)) ==
              ([1, 0, 0, 0] + EncEntry(e)) + (root + ([5, 0, 0, 0, 0, 0, 0, 0] + [7, 0, 0, 0, 0, 0, 0, 0]))
    ensures var p := PartialUpdate([], root, 5, 7);
            EncUpdate(LedgerUpdate(p, [CompensationEntry([65], paid, 3)], 11, [[66]], [[67]])) ==
              EncPartial(p) +
              (([1, 0, 0, 0] + ([1, 0, 0, 0, 65] + (paid + [3, 0, 0, 0, 0, 0, 0, 0]))) +
               ([11, 0, 0, 0, 0, 0, 0, 0] + (([1, 0, 0, 0] + [1, 0, 0, 0, 66]) + ([1, 0, 0, 0] + [1, 0, 0, 0, 67]))))
  {
    var e := TransactionEntry(key, -1, [9]);
    MinusOne();
    OneByteText(9);
    OneItem(EncEntry, e);
    SmallNumbers(5);
    SmallNumbers(7);
    SmallNumbers(3);
    SmallNumbers(11);
    OneByteText(65);
    OneByteText(66);
    OneByteText(67);
    OneItem(EncCompensation, CompensationEntry([65], paid, 3));
    OneItem(EncText, [66]);
    OneItem(EncText, [67]);
  }
}
