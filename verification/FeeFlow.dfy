/** From protocol transactions to ledger entries, and the fees found again in the batch. */
module FeeFlow {
  import opened Binary
  import opened Merkle
  import opened Ledger
  import opened Construction
  import opened Wire
  import opened Validity

  /** How a contract call is written into the signature field of its marker entry. */
  type MarkerEncoder = Transaction -> Octets

  // ---------- who pays ----------

  predicate Debits(e: TxEntry) { e.amount.NonConfidential? && e.amount.value < 0 }

  /** All debits are of one key, which is the sender; no debit, or two keys, means none. */
  ghost predicate IsSender(entries: seq<TxEntry>, sender: Option<Hash>) {
    match sender
    case Some(k) =>
      && (exists e :: e in entries && Debits(e))
      && (forall e :: e in entries && Debits(e) ==> e.publicKey == k)
    case None =>
      || (forall e :: e in entries ==> !Debits(e))
      || (exists e, f :: e in entries && f in entries && Debits(e) && Debits(f) && e.publicKey != f.publicKey)
  }

  lemma SenderUnique(entries: seq<TxEntry>, a: Option<Hash>, b: Option<Hash>)
    requires IsSender(entries, a) && IsSender(entries, b)
    ensures a == b
  {}

  method DebitedSender(entries: seq<TxEntry>) returns (sender: Option<Hash>)
    ensures IsSender(entries, sender)
  {
    sender := None;
    for i := 0 to |entries|
      invariant sender.None? ==> forall j :: 0 <= j < i ==> !Debits(entries[j])
      invariant sender.Some? ==> exists j :: 0 <= j < i && Debits(entries[j]) && entries[j].publicKey == sender.value
      invariant sender.Some? ==> forall j :: 0 <= j < i && Debits(entries[j]) ==> entries[j].publicKey == sender.value
    {
      var e := entries[i];
      if Debits(e) {
        match sender
        case None => sender := Some(e.publicKey);
        case Some(pk) =>
          if pk != e.publicKey {
            ghost var j :| 0 <= j < i && Debits(entries[j]) && entries[j].publicKey == pk;
            assert entries[j] in entries && e in entries;
            return None;
          }
      }
    }
    if sender.Some? {
      ghost var j :| 0 <= j < |entries| && Debits(entries[j]);
      assert entries[j] in entries;
    }
  }

  function FirstKey(entries: seq<TxEntry>): Option<Hash> {
    if entries == [] then None else Some(entries[0].publicKey)
  }

  ghost predicate IsSenderOf(tx: Transaction, sender: Option<Hash>) {
    if tx.core.txType.WorkerRegistration? || tx.core.txType.SmartContract? then sender == FirstKey(tx.core.entries)
    else IsSender(tx.core.entries, sender)
  }

  /** A registration or contract call is sent by the key of its first entry. */
  lemma MarkerSender(tx: Transaction, sender: Option<Hash>)
    requires tx.core.txType.WorkerRegistration? || tx.core.txType.SmartContract?
    ensures IsSenderOf(tx, sender) <==>
              if |tx.core.entries| == 0 then sender == None else sender == Some(tx.core.entries[0].publicKey)
  {}

  method SenderPubkey(tx: Transaction) returns (sender: Option<Hash>)
    ensures IsSenderOf(tx, sender)
  {
    if tx.core.txType.WorkerRegistration? || tx.core.txType.SmartContract? {
      sender := FirstKey(tx.core.entries);
    } else {
      sender := DebitedSender(tx.core.entries);
    }
  }

  // ---------- the entries ----------

  /** A fee that does not fit the ledger's signed amounts is not charged. */
  function FeeDebit(fees: U64, sender: Hash, signature: Octets): seq<TransactionEntry> {
    if fees == 0 || fees > MAX_I64 then [] else [TransactionEntry(sender, 0 - fees, signature)]
  }

  function Visible(entries: seq<TxEntry>, signature: Octets): seq<TransactionEntry> {
    if entries == [] then []
    else
      var n := |entries| - 1;
      var front := Visible(entries[..n], signature);
      match entries[n].amount
      case NonConfidential(v) => front + [TransactionEntry(entries[n].publicKey, v, signature)]
      case Confidential(_, _) => front
  }

  /** "WRKREG1". */
  const WORKER_MARKER: Octets := [87, 82, 75, 82, 69, 71, 49]

  function KeyOrZero(entries: seq<TxEntry>): Hash {
    if entries == [] then ZERO_HASH else entries[0].publicKey
  }

  method ToConsensusEntries(tx: Transaction, marker: MarkerEncoder)
    returns (out: seq<TransactionEntry>, sender: Option<Hash>)
    ensures IsSenderOf(tx, sender) && out == EntriesOf(tx, marker, sender)
  {
    sender := SenderPubkey(tx);
    match tx.core.txType
    case WorkerRegistration =>
      var key, signature := KeyOrZero(tx.core.entries), WORKER_MARKER + tx.signature;
      out := [TransactionEntry(key, 0, signature)] + FeeDebit(tx.core.fees, key, signature);
    case SmartContract =>
      var key, signature := KeyOrZero(tx.core.entries), marker(tx);
      out := [TransactionEntry(key, 0, signature)] + FeeDebit(tx.core.fees, key, signature);
    case _ =>
      out := [];
      var entries := tx.core.entries;
      for i := 0 to |entries|
        invariant out == Visible(entries[..i], tx.signature)
      {
        assert entries[..i + 1][..i] == entries[..i];
        if entries[i].amount.NonConfidential? {
          out := out + [TransactionEntry(entries[i].publicKey, entries[i].amount.value, tx.signature)];
        }
      }
      assert entries[..|entries|] == entries;
      var payer := SenderPubkey(tx);
      SenderUnique(entries, payer, sender);
      if payer.Some? { out := out + FeeDebit(tx.core.fees, payer.value, tx.signature); }
  }

  function EntriesOf(tx: Transaction, marker: MarkerEncoder, sender: Option<Hash>): seq<TransactionEntry> {
    match tx.core.txType
    case WorkerRegistration =>
      var key, signature := KeyOrZero(tx.core.entries), WORKER_MARKER + tx.signature;
      [TransactionEntry(key, 0, signature)] + FeeDebit(tx.core.fees, key, signature)
    case SmartContract =>
      var key, signature := KeyOrZero(tx.core.entries), marker(tx);
      [TransactionEntry(key, 0, signature)] + FeeDebit(tx.core.fees, key, signature)
    case _ =>
      Visible(tx.core.entries, tx.signature) +
      (if sender.Some? then FeeDebit(tx.core.fees, sender.value, tx.signature) else [])
  }

  // ---------- what is charged ----------

  predicate IsMarker(tx: Transaction) { tx.core.txType.WorkerRegistration? || tx.core.txType.SmartContract? }

  function VisibleSum(entries: seq<TxEntry>): int {
    if entries == [] then 0
    else
      var n := |entries| - 1;
      VisibleSum(entries[..n]) + (if entries[n].amount.NonConfidential? then entries[n].amount.value else 0)
  }

  /** What moves between accounts, fees aside. */
  function Moved(tx: Transaction): int { if IsMarker(tx) then 0 else VisibleSum(tx.core.entries) }

  function Charged(tx: Transaction, sender: Option<Hash>): (r: U64)
    ensures r <= tx.core.fees
  {
    if tx.core.fees <= MAX_I64 && (IsMarker(tx) || sender.Some?) then tx.core.fees else 0
  }

  lemma FeeDebitNet(fees: U64, sender: Hash, signature: Octets)
    ensures NetAmount(FeeDebit(fees, sender, signature)) == if fees > MAX_I64 then 0 else 0 - fees
  {
    if 0 < fees <= MAX_I64 { assert FeeDebit(fees, sender, signature)[1..] == []; }
  }

  lemma {:induction false} VisibleNet(entries: seq<TxEntry>, signature: Octets)
    ensures NetAmount(Visible(entries, signature)) == VisibleSum(entries)
  {
    if entries != [] {
      var n := |entries| - 1;
      VisibleNet(entries[..n], signature);
      if entries[n].amount.NonConfidential? {
        var one := [TransactionEntry(entries[n].publicKey, entries[n].amount.value, signature)];
        NetAmountConcat(Visible(entries[..n], signature), one);
        assert one[1..] == [];
      }
    }
  }

  lemma EntriesNet(tx: Transaction, marker: MarkerEncoder, sender: Option<Hash>)
    ensures NetAmount(EntriesOf(tx, marker, sender)) == Moved(tx) - Charged(tx, sender)
  {
    if IsMarker(tx) {
      var key := KeyOrZero(tx.core.entries);
      var signature := if tx.core.txType.WorkerRegistration? then WORKER_MARKER + tx.signature else marker(tx);
      var head := [TransactionEntry(key, 0, signature)];
      FeeDebitNet(tx.core.fees, key, signature);
      NetAmountConcat(head, FeeDebit(tx.core.fees, key, signature));
      assert head[1..] == [];
    } else {
      var visible := Visible(tx.core.entries, tx.signature);
      VisibleNet(tx.core.entries, tx.signature);
      if sender.Some? {
        FeeDebitNet(tx.core.fees, sender.value, tx.signature);
        NetAmountConcat(visible, FeeDebit(tx.core.fees, sender.value, tx.signature));
      } else {
        assert visible + [] == visible;
      }
    }
  }

  // ---------- whose entries they are ----------

  /** What the entries add up to for one key. */
  function NetOfKey(entries: seq<TransactionEntry>, k: Hash): int {
    if entries == [] then 0
    else
      var n := |entries| - 1;
      NetOfKey(entries[..n], k) + (if entries[n].publicKey == k then entries[n].amount else 0)
  }

  function VisibleOfKey(entries: seq<TxEntry>, k: Hash): int {
    if entries == [] then 0
    else
      var n := |entries| - 1;
      VisibleOfKey(entries[..n], k) +
        (if entries[n].publicKey == k && entries[n].amount.NonConfidential? then entries[n].amount.value else 0)
  }

  lemma {:induction false} NetOfKeyConcat(a: seq<TransactionEntry>, b: seq<TransactionEntry>, k: Hash)
    ensures NetOfKey(a + b, k) == NetOfKey(a, k) + NetOfKey(b, k)
    decreases |b|
  {
    if b == [] {
      assert a + b == a;
    } else {
      var n := |b| - 1;
      assert (a + b)[..|a| + n] == a + b[..n];
      NetOfKeyConcat(a, b[..n], k);
    }
  }

  lemma NetOfKeySingle(e: TransactionEntry, k: Hash)
    ensures NetOfKey([e], k) == if e.publicKey == k then e.amount else 0
  {
    assert [e][..0] == [];
  }

  lemma {:induction false} VisibleByKey(entries: seq<TxEntry>, signature: Octets, k: Hash)
    ensures NetOfKey(Visible(entries, signature), k) == VisibleOfKey(entries, k)
  {
    if entries != [] {
      var n := |entries| - 1;
      VisibleByKey(entries[..n], signature, k);
      if entries[n].amount.NonConfidential? {
        var e := TransactionEntry(entries[n].publicKey, entries[n].amount.value, signature);
        NetOfKeyConcat(Visible(entries[..n], signature), [e], k);
        NetOfKeySingle(e, k);
      }
    }
  }

  lemma DebitByKey(fees: U64, sender: Hash, signature: Octets, k: Hash)
    ensures NetOfKey(FeeDebit(fees, sender, signature), k) == if k == sender && fees <= MAX_I64 then 0 - fees else 0
  {
    if 0 < fees <= MAX_I64 { NetOfKeySingle(TransactionEntry(sender, 0 - fees, signature), k); }
  }

  /** The fee is charged to the sender: to the key of the first entry for a registration or a contract
      call, the zero key if there is none, and to the one debited key otherwise. */
  predicate PaysFee(tx: Transaction, sender: Option<Hash>, k: Hash) {
    sender == Some(k) || (IsMarker(tx) && sender.None? && k == ZERO_HASH)
  }

  /** Key by key, the entries are the visible amounts, less the charge for whoever pays it. */
  lemma EntriesByKey(tx: Transaction, marker: MarkerEncoder, sender: Option<Hash>, k: Hash)
    requires IsSenderOf(tx, sender)
    ensures NetOfKey(EntriesOf(tx, marker, sender), k) ==
              (if IsMarker(tx) then 0 else VisibleOfKey(tx.core.entries, k)) -
              (if PaysFee(tx, sender, k) then Charged(tx, sender) else 0)
  {
    if IsMarker(tx) {
      var key := KeyOrZero(tx.core.entries);
      var signature := if tx.core.txType.WorkerRegistration? then WORKER_MARKER + tx.signature else marker(tx);
      var head := TransactionEntry(key, 0, signature);
      NetOfKeySingle(head, k);
      DebitByKey(tx.core.fees, key, signature, k);
      NetOfKeyConcat([head], FeeDebit(tx.core.fees, key, signature), k);
    } else {
      var visible := Visible(tx.core.entries, tx.signature);
      VisibleByKey(tx.core.entries, tx.signature, k);
      if sender.Some? {
        DebitByKey(tx.core.fees, sender.value, tx.signature, k);
        NetOfKeyConcat(visible, FeeDebit(tx.core.fees, sender.value, tx.signature), k);
      } else {
        assert visible + [] == visible;
      }
    }
  }

  /** All entries of a transaction carry its signature, behind "WRKREG1" for a registration, or the
      marker of a contract call. */
  lemma EntriesSigned(tx: Transaction, marker: MarkerEncoder, sender: Option<Hash>)
    ensures forall e :: e in EntriesOf(tx, marker, sender) ==>
              e.signature ==
                match tx.core.txType
                case WorkerRegistration => [87, 82, 75, 82, 69, 71, 49] + tx.signature
                case SmartContract => marker(tx)
                case _ => tx.signature
  {
    VisibleSigned(tx.core.entries, tx.signature);
  }

  lemma {:induction false} VisibleSigned(entries: seq<TxEntry>, signature: Octets)
    ensures forall e :: e in Visible(entries, signature) ==> e.signature == signature
  {
    if entries != [] { VisibleSigned(entries[..|entries| - 1], signature); }
  }

  // ---------- whole batches ----------

  /** A transaction with the sender that is found for it. */
  datatype Payment = Payment(tx: Transaction, sender: Option<Hash>)

  function BatchEntries(batch: seq<Payment>, marker: MarkerEncoder): seq<TransactionEntry> {
    if batch == [] then []
    else var n := |batch| - 1; BatchEntries(batch[..n], marker) + EntriesOf(batch[n].tx, marker, batch[n].sender)
  }

  function Sum(batch: seq<Payment>, f: Payment -> int): int {
    if batch == [] then 0 else var n := |batch| - 1; Sum(batch[..n], f) + f(batch[n])
  }

  function MovedOf(): Payment -> int { (p: Payment) => Moved(p.tx) }
  function ChargedOf(): Payment -> int { (p: Payment) => Charged(p.tx, p.sender) }
  function DeclaredOf(): Payment -> int { (p: Payment) => p.tx.core.fees }

  lemma {:induction false} BatchNet(batch: seq<Payment>, marker: MarkerEncoder)
    ensures NetAmount(BatchEntries(batch, marker)) == Sum(batch, MovedOf()) - Sum(batch, ChargedOf())
  {
    if batch != [] {
      var n := |batch| - 1;
      BatchNet(batch[..n], marker);
      EntriesNet(batch[n].tx, marker, batch[n].sender);
      NetAmountConcat(BatchEntries(batch[..n], marker), EntriesOf(batch[n].tx, marker, batch[n].sender));
    }
  }

  lemma {:induction false} SumZero(batch: seq<Payment>, f: Payment -> int)
    requires forall p :: p in batch ==> f(p) == 0
    ensures Sum(batch, f) == 0
  {
    if batch != [] {
      var n := |batch| - 1;
      assert batch[n] in batch && forall p :: p in batch[..n] ==> p in batch;
      SumZero(batch[..n], f);
    }
  }

  lemma {:induction false} SumNonNegative(batch: seq<Payment>)
    ensures 0 <= Sum(batch, ChargedOf()) <= Sum(batch, DeclaredOf())
  {
    if batch != [] { SumNonNegative(batch[..|batch| - 1]); }
  }

  /** For a batch whose transfers balance, the fees found in the sorted entries are exactly what
      was charged, up to the u64 cap, whatever the cycle and the order. */
  lemma FeesRecovered(H: HashFn, cycle: U64, batch: seq<Payment>, marker: MarkerEncoder)
    requires forall p :: p in batch ==> Moved(p.tx) == 0
    ensures BuildPartial(H, cycle, BatchEntries(batch, marker)).totalFees == Min(Sum(batch, ChargedOf()), MAX_U64)
  {
    BatchNet(batch, marker);
    SumZero(batch, MovedOf());
    SumNonNegative(batch);
    FeesDependOnBatch(H, cycle, BatchEntries(batch, marker));
  }

  /** Every declared fee was charged. */
  ghost predicate AllCharged(batch: seq<Payment>) {
    forall p :: p in batch ==> p.tx.core.fees == 0 || (p.tx.core.fees <= MAX_I64 && (IsMarker(p.tx) || p.sender.Some?))
  }

  /** What is charged is what was declared exactly when each transaction with a fee has a sender
      and a fee that fits the ledger. */
  lemma {:induction false} ChargedExactly(batch: seq<Payment>)
    ensures Sum(batch, ChargedOf()) == Sum(batch, DeclaredOf()) <==> AllCharged(batch)
  {
    if batch != [] {
      var n := |batch| - 1;
      ChargedExactly(batch[..n]);
      SumNonNegative(batch[..n]);
      assert batch == batch[..n] + [batch[n]];
      assert forall p :: p in batch <==> p in batch[..n] || p == batch[n];
    }
  }

  /** The end-to-end law: declared fees come out of construction, clamped at u64. */
  lemma FeeFlowEndToEnd(H: HashFn, cycle: U64, batch: seq<Payment>, marker: MarkerEncoder)
    requires AllCharged(batch) && forall p :: p in batch ==> Moved(p.tx) == 0
    ensures BuildPartial(H, cycle, BatchEntries(batch, marker)).totalFees == Min(Sum(batch, DeclaredOf()), MAX_U64)
  {
    FeesRecovered(H, cycle, batch, marker);
    ChargedExactly(batch);
  }

  /** For balanced batches the declared fees come out, clamped at u64, if and only if all of them
      were charged or what was charged already fills u64. */
  lemma FeesRecoveredExactly(H: HashFn, cycle: U64, batch: seq<Payment>, marker: MarkerEncoder)
    requires forall p :: p in batch ==> Moved(p.tx) == 0
    ensures BuildPartial(H, cycle, BatchEntries(batch, marker)).totalFees == Min(Sum(batch, DeclaredOf()), MAX_U64) <==>
              AllCharged(batch) || Sum(batch, ChargedOf()) >= MAX_U64
  {
    FeesRecovered(H, cycle, batch, marker);
    ChargedExactly(batch);
    SumNonNegative(batch);
  }

  /** A marker that passes the checks always has a sender, and pays any fee that fits i64. */
  lemma ValidMarkersPay(tx: Transaction, nowSecs: U64, sender: Option<Hash>)
    requires Acceptable(tx, nowSecs) && IsMarker(tx) && IsSenderOf(tx, sender)
    ensures sender.Some? && tx.core.fees >= 2
    ensures Charged(tx, sender) == tx.core.fees <==> tx.core.fees <= MAX_I64
  {}

  function TwoDebits(a: Hash, b: Hash, c: Hash): Transaction {
    Transaction(
      TxCore(NonConfidentialTransfer,
             [TxEntry(a, NonConfidential(-1)), TxEntry(b, NonConfidential(-1)), TxEntry(c, NonConfidential(2))],
             1, 0, 5, []),
      SCHNORR_V1, [0], None, 0)
  }

  /** A transfer can pass the checks and pay nothing: it balances and debits two keys. */
  lemma TwoDebitsPayNothing(H: HashFn, cycle: U64, marker: MarkerEncoder, a: Hash, b: Hash, c: Hash)
    requires a != b
    ensures var tx := TwoDebits(a, b, c);
            && Acceptable(tx, 0) && Moved(tx) == 0 && IsSenderOf(tx, None) && !IsSenderOf(tx, Some(a))
            && BuildPartial(H, cycle, BatchEntries([Payment(tx, None)], marker)).totalFees == 0 < tx.core.fees
  {
    var tx := TwoDebits(a, b, c);
    var entries := tx.core.entries;
    assert entries[0] in entries && entries[1] in entries && Debits(entries[0]) && Debits(entries[1]);
    var one, two := [entries[0]], [entries[0], entries[1]];
    assert entries[..2] == two && two[..1] == one && one[..0] == [];
    assert VisibleSum(one) == -1;
    assert VisibleSum(two) == -2;
    assert Moved(tx) == 0;
    var batch := [Payment(tx, None)];
    FeesRecovered(H, cycle, batch, marker);
    assert batch[..0] == [];
    assert Sum(batch, ChargedOf()) == 0;
  }
}
