/** Phase one: the partial update a producer builds from its frozen batch of entries. */
module Construction {
  import opened Binary
  import opened Sorting
  import opened Merkle
  import opened Ledger

  // ---------- the comparator ----------

  /** Signature digest, then key, then amount, then signature length. */
  predicate EntryLeq(H: HashFn, a: TransactionEntry, b: TransactionEntry) {
    var ha: Octets, hb: Octets := H(a.signature), H(b.signature);
    if ha != hb then Leq(ha, hb)
    else if a.publicKey != b.publicKey then Leq(a.publicKey, b.publicKey)
    else if a.amount != b.amount then a.amount < b.amount
    else |a.signature| <= |b.signature|
  }

  function EntryOrder(H: HashFn): (TransactionEntry, TransactionEntry) -> bool {
    (a: TransactionEntry, b: TransactionEntry) => EntryLeq(H, a, b)
  }

  lemma EntryLeqTransitive(H: HashFn, a: TransactionEntry, b: TransactionEntry, c: TransactionEntry)
    requires EntryLeq(H, a, b) && EntryLeq(H, b, c)
    ensures EntryLeq(H, a, c)
  {
    var ha: Octets, hb: Octets, hc: Octets := H(a.signature), H(b.signature), H(c.signature);
    if ha != hb || hb != hc {
      if ha != hb && hb != hc {
        LeqTransitive(ha, hb, hc);
        if ha == hc { LeqAntisymmetric(ha, hb); }
      }
    } else if a.publicKey != b.publicKey && b.publicKey != c.publicKey {
      LeqTransitive(a.publicKey, b.publicKey, c.publicKey);
      if a.publicKey == c.publicKey { LeqAntisymmetric(a.publicKey, b.publicKey); }
    }
  }

  lemma EntryOrderTotal(H: HashFn)
    ensures TotalPreorder(EntryOrder(H))
  {
    var le := EntryOrder(H);
    forall a, b ensures le(a, b) || le(b, a) {
      LeqTotal(H(a.signature), H(b.signature));
      LeqTotal(a.publicKey, b.publicKey);
    }
    forall a, b, c | le(a, b) && le(b, c) ensures le(a, c) {
      EntryLeqTransitive(H, a, b, c);
    }
  }

  /** No two entries differ only in signatures of one length that share a digest. */
  ghost predicate NoTiedEntries(H: HashFn, entries: seq<TransactionEntry>) {
    forall e, f :: e in entries && f in entries && SameButSignature(e, f) && H(e.signature) == H(f.signature)
      ==> e.signature == f.signature
  }

  predicate SameButSignature(e: TransactionEntry, f: TransactionEntry) {
    e.publicKey == f.publicKey && e.amount == f.amount && |e.signature| == |f.signature|
  }

  lemma EntriesTie(H: HashFn, e: TransactionEntry, f: TransactionEntry)
    ensures Ties(e, f, EntryOrder(H)) <==> SameButSignature(e, f) && H(e.signature) == H(f.signature)
  {
    var he: Octets, hf: Octets := H(e.signature), H(f.signature);
    if Ties(e, f, EntryOrder(H)) {
      if he != hf { LeqAntisymmetric(he, hf); }
      if e.publicKey != f.publicKey { LeqAntisymmetric(e.publicKey, f.publicKey); }
    }
  }

  // ---------- the partial update ----------

  function SignatureLeaves(H: HashFn, entries: seq<TransactionEntry>): (r: seq<Hash>)
    ensures |r| == |entries|
  {
    seq<Hash>(|entries|, i requires 0 <= i < |entries| => H(entries[i].signature))
  }

  function NetAmount(entries: seq<TransactionEntry>): int {
    if entries == [] then 0 else entries[0].amount + NetAmount(entries[1..])
  }

  /** Fees are the net-negative part of the batch, capped at u64. */
  function TotalFees(entries: seq<TransactionEntry>): U64 {
    var net := NetAmount(entries);
    if net < 0 then Min(-net, MAX_U64) else 0
  }

  function BuildPartial(H: HashFn, cycle: U64, batch: seq<TransactionEntry>): PartialUpdate {
    var sorted := SortBy(batch, EntryOrder(H));
    PartialUpdate(sorted, MerkleRoot(H, SignatureLeaves(H, sorted)), TotalFees(sorted), cycle)
  }

  function PartialHash(H: HashFn, p: PartialUpdate): Hash { H(EncPartial(p)) }

  lemma {:induction false} NetAmountConcat(a: seq<TransactionEntry>, b: seq<TransactionEntry>)
    ensures NetAmount(a + b) == NetAmount(a) + NetAmount(b)
  {
    if a == [] {
      assert a + b == b;
    } else {
      NetAmountConcat(a[1..], b);
      assert (a + b)[1..] == a[1..] + b;
    }
  }

  lemma SameRemainder(a: seq<TransactionEntry>, b: seq<TransactionEntry>, i: nat)
    requires multiset(a) == multiset(b) && a != [] && i < |b| && b[i] == a[0]
    ensures multiset(a[1..]) == multiset(b[..i] + b[i + 1..])
  {
    TailMultiset(a);
    RemoveAt(b, i);
  }

  lemma NetAmountWithoutOne(b: seq<TransactionEntry>, i: nat)
    requires i < |b|
    ensures NetAmount(b) == b[i].amount + NetAmount(b[..i] + b[i + 1..])
  {
    var front, back := b[..i], b[i + 1..];
    assert b == front + ([b[i]] + back);
    NetAmountConcat(front, back);
    NetAmountConcat(front, [b[i]] + back);
    assert ([b[i]] + back)[1..] == back;
  }

  lemma {:induction false} NetAmountOfPermutation(a: seq<TransactionEntry>, b: seq<TransactionEntry>)
    requires multiset(a) == multiset(b)
    ensures NetAmount(a) == NetAmount(b)
    decreases |a|
  {
    SameElements(a, b);
    if a != [] {
      assert a[0] in b;
      var i :| 0 <= i < |b| && b[i] == a[0];
      var rest := b[..i] + b[i + 1..];
      SameRemainder(a, b, i);
      NetAmountOfPermutation(a[1..], rest);
      NetAmountWithoutOne(b, i);
    }
  }

  // ---------- the batch, not its order ----------

  ghost predicate OrderIndependent(H: HashFn, cycle: U64, batch: seq<TransactionEntry>) {
    forall other :: Rearranges(other, batch) ==> BuildPartial(H, cycle, other) == BuildPartial(H, cycle, batch)
  }

  ghost predicate Rearranges(other: seq<TransactionEntry>, batch: seq<TransactionEntry>) {
    multiset(other) == multiset(batch)
  }

  /** Every order of the batch builds the same partial update, hence the same first hash,
      exactly when no two of its entries are told apart only by colliding signatures. */
  lemma ConstructionDependsOnBatch(H: HashFn, cycle: U64, batch: seq<TransactionEntry>)
    ensures OrderIndependent(H, cycle, batch) <==> NoTiedEntries(H, batch)
  {
    var le := EntryOrder(H);
    EntryOrderTotal(H);
    if NoTiedEntries(H, batch) {
      assert TieFree(batch, le) by {
        forall i, j | 0 <= i < |batch| && 0 <= j < |batch| && le(batch[i], batch[j]) && le(batch[j], batch[i])
          ensures batch[i] == batch[j]
        {
          assert Ties(batch[i], batch[j], le);
          EntriesTie(H, batch[i], batch[j]);
        }
      }
      forall other | Rearranges(other, batch)
        ensures BuildPartial(H, cycle, other) == BuildPartial(H, cycle, batch)
      {
        SortOfPermutations(batch, other, le);
      }
    } else {
      var e, f :| e in batch && f in batch && SameButSignature(e, f) && H(e.signature) == H(f.signature)
               && e.signature != f.signature;
      var p, q := TiedEntriesExposeOrder(H, cycle, batch, e, f);
    }
  }

  lemma TiedEntriesExposeOrder(H: HashFn, cycle: U64, batch: seq<TransactionEntry>, e: TransactionEntry,
                               f: TransactionEntry)
    returns (p: seq<TransactionEntry>, q: seq<TransactionEntry>)
    requires e in batch && f in batch && e != f
    requires SameButSignature(e, f) && H(e.signature) == H(f.signature)
    ensures Rearranges(p, batch) && Rearranges(q, batch)
    ensures BuildPartial(H, cycle, p).entries != BuildPartial(H, cycle, q).entries
  {
    var rest := WithoutPair(batch, e, f);
    p, q := [e, f] + rest, [f, e] + rest;
    SwappedTiesSortApart(H, e, f, rest);
  }

  lemma SwappedTiesSortApart(H: HashFn, e: TransactionEntry, f: TransactionEntry, rest: seq<TransactionEntry>)
    requires e != f && SameButSignature(e, f) && H(e.signature) == H(f.signature)
    ensures SortBy([e, f] + rest, EntryOrder(H)) != SortBy([f, e] + rest, EntryOrder(H))
  {
    var le := EntryOrder(H);
    var p, q := [e, f] + rest, [f, e] + rest;
    EntryOrderTotal(H);
    EntriesTie(H, e, f);
    EntriesTie(H, e, e);
    SortIsStable(e, p, le);
    SortIsStable(e, q, le);
    FirstTie(e, p, le);
    FirstTie(e, q, le);
    assert p[0] == e && q[0] == f;
  }

  lemma FirstTie(x: TransactionEntry, s: seq<TransactionEntry>, le: (TransactionEntry, TransactionEntry) -> bool)
    requires s != [] && Ties(x, s[0], le)
    ensures TieClass(x, s, le) != [] && TieClass(x, s, le)[0] == s[0]
  {}

  lemma WithoutPair(batch: seq<TransactionEntry>, e: TransactionEntry, f: TransactionEntry)
    returns (rest: seq<TransactionEntry>)
    requires e in batch && f in batch && e != f
    ensures multiset([e, f] + rest) == multiset(batch) == multiset([f, e] + rest)
  {
    var i :| 0 <= i < |batch| && batch[i] == e;
    var one := batch[..i] + batch[i + 1..];
    RemoveAt(batch, i);
    OtherStays(batch, i, f);
    var j :| 0 <= j < |one| && one[j] == f;
    rest := one[..j] + one[j + 1..];
    RemoveAt(one, j);
    PairInFront(e, f, rest);
  }

  lemma OtherStays(batch: seq<TransactionEntry>, i: nat, f: TransactionEntry)
    requires i < |batch| && f in batch && f != batch[i]
    ensures f in batch[..i] + batch[i + 1..]
  {
    var k :| 0 <= k < |batch| && batch[k] == f;
    var rest := batch[..i] + batch[i + 1..];
    assert rest[if k < i then k else k - 1] == f;
  }

  lemma PairInFront(e: TransactionEntry, f: TransactionEntry, rest: seq<TransactionEntry>)
    ensures multiset([e, f] + rest) == (multiset(rest) + multiset{f}) + multiset{e}
    ensures multiset([f, e] + rest) == (multiset(rest) + multiset{f}) + multiset{e}
  {}

  /** The fee total survives sorting even when the order of tied entries does not. */
  lemma FeesDependOnBatch(H: HashFn, cycle: U64, batch: seq<TransactionEntry>)
    ensures BuildPartial(H, cycle, batch).totalFees == TotalFees(batch)
  {
    NetAmountOfPermutation(SortBy(batch, EntryOrder(H)), batch);
  }

  // ---------- what the partial update says ----------

  /** Entries come in ascending order of signature digest, then key, then amount, then signature
      length. */
  ghost predicate InOrder(H: HashFn, a: TransactionEntry, b: TransactionEntry) {
    || Less(H(a.signature), H(b.signature))
    || (H(a.signature) == H(b.signature) &&
        (|| Less(a.publicKey, b.publicKey)
         || (a.publicKey == b.publicKey &&
             (a.amount < b.amount || (a.amount == b.amount && |a.signature| <= |b.signature|)))))
  }

  /** A partial update holds the whole batch, in that order, under its cycle. */
  lemma PartialHoldsBatch(H: HashFn, cycle: U64, batch: seq<TransactionEntry>)
    ensures var u := BuildPartial(H, cycle, batch);
            && multiset(u.entries) == multiset(batch) && u.timestamp == cycle
            && forall i, j :: 0 <= i < j < |u.entries| ==> InOrder(H, u.entries[i], u.entries[j])
  {
    var u := BuildPartial(H, cycle, batch);
    EntryOrderTotal(H);
    SortBySorted(batch, EntryOrder(H));
    forall i, j | 0 <= i < j < |u.entries| ensures InOrder(H, u.entries[i], u.entries[j]) {
      assert EntryOrder(H)(u.entries[i], u.entries[j]);
    }
  }

  /** Its signature root is over the digests of the signatures, one leaf each, in entry order. */
  lemma RootOfSignatures(H: HashFn, cycle: U64, batch: seq<TransactionEntry>, leaves: seq<Hash>)
    requires var u := BuildPartial(H, cycle, batch);
             |leaves| == |u.entries| && forall i :: 0 <= i < |leaves| ==> leaves[i] == H(u.entries[i].signature)
    ensures BuildPartial(H, cycle, batch).signaturesHash == MerkleRoot(H, leaves)
  {
    assert leaves == SignatureLeaves(H, BuildPartial(H, cycle, batch).entries);
  }

  /** So batches of one size with one signature root carry the same signature digests in order. */
  lemma SignaturesCommitted(H: HashFn, cycle: U64, a: seq<TransactionEntry>, b: seq<TransactionEntry>, i: nat)
    requires |a| == |b| && i < |a|
    requires BuildPartial(H, cycle, a).signaturesHash == BuildPartial(H, cycle, b).signaturesHash
    requires var x := SignatureLeaves(H, BuildPartial(H, cycle, a).entries);
             var y := SignatureLeaves(H, BuildPartial(H, cycle, b).entries);
             CollisionFree(H, NodePreimages(H, x) + NodePreimages(H, y))
    ensures |BuildPartial(H, cycle, a).entries| == |BuildPartial(H, cycle, b).entries| == |a|
    ensures H(BuildPartial(H, cycle, a).entries[i].signature) == H(BuildPartial(H, cycle, b).entries[i].signature)
  {
    SameElements(a, SortBy(a, EntryOrder(H)));
    SameElements(b, SortBy(b, EntryOrder(H)));
    var x := SignatureLeaves(H, BuildPartial(H, cycle, a).entries);
    var y := SignatureLeaves(H, BuildPartial(H, cycle, b).entries);
    SameSizeRoots(H, x, y);
    assert x[i] == y[i];
  }
}
