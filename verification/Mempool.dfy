/** The pool of pending transactions. Times are those of one monotonic clock. */
module Mempool {
  import opened Binary
  import opened Sorting
  import opened Ledger
  import opened Wire
  import opened Merkle
  import opened Construction
  import opened Validity
  import opened FeeFlow
  import Majority

  datatype Item = Item(
    entries: seq<TransactionEntry>,
    sender: Option<Hash>,
    nonce: Option<U64>,
    tx: Option<Transaction>,
    insertedAt: nat)

  /** Ids are compared as byte strings. */
  type Items = map<Octets, Item>

  /** The items whose age is within `ttl`. */
  function Unexpired(items: Items, ttl: nat, now: nat): Items {
    map id | id in items && now - items[id].insertedAt <= ttl :: items[id]
  }

  /** An item of age at most `ttl` stays as it is, and an older one goes. */
  lemma UnexpiredExactly(items: Items, ttl: nat, now: nat, id: Octets)
    ensures id in Unexpired(items, ttl, now) <==> id in items && now <= items[id].insertedAt + ttl
    ensures id in Unexpired(items, ttl, now) ==> Unexpired(items, ttl, now)[id] == items[id]
  {}

  ghost function OfSender(items: Items, sender: Hash): set<Octets> {
    set id | id in items && items[id].sender == Some(sender)
  }

  lemma EvictionShrinks(items: Items, ttl: nat, now: nat)
    ensures |Unexpired(items, ttl, now)| <= |items|
    ensures forall s :: |OfSender(Unexpired(items, ttl, now), s)| <= |OfSender(items, s)|
  {
    var unexpired := Unexpired(items, ttl, now);
    Majority.Subset(unexpired.Keys, items.Keys);
    forall s ensures |OfSender(unexpired, s)| <= |OfSender(items, s)| {
      Majority.Subset(OfSender(unexpired, s), OfSender(items, s));
    }
  }

  lemma AddedOfSender(items: Items, id: Octets, item: Item, s: Hash)
    requires id !in items
    ensures |OfSender(items[id := item], s)| == |OfSender(items, s)| + (if item.sender == Some(s) then 1 else 0)
  {
    assert id !in OfSender(items, s);
    assert OfSender(items[id := item], s) == OfSender(items, s) + (if item.sender == Some(s) then {id} else {});
  }

  lemma AddedCounts(items: Items, id: Octets, item: Item)
    requires id !in items
    ensures |items[id := item]| == |items| + 1
    ensures forall s ::
              |OfSender(items[id := item], s)| == |OfSender(items, s)| + (if item.sender == Some(s) then 1 else 0)
  {
    assert items[id := item].Keys == items.Keys + {id};
    forall s
      ensures |OfSender(items[id := item], s)| == |OfSender(items, s)| + (if item.sender == Some(s) then 1 else 0)
    {
      AddedOfSender(items, id, item, s);
    }
  }

  // ---------- the snapshot ----------

  /** `out` lists the transactions of `ids`, which are the smallest ids with a transaction, in
      strictly increasing order: all of them, or the first `max`. */
  ghost predicate IsSnapshot(items: Items, max: nat, ids: seq<Octets>, out: seq<Transaction>) {
    && |ids| == |out| <= max
    && StrictlyIncreasing(ids)
    && (forall i :: 0 <= i < |ids| ==> ids[i] in items && items[ids[i]].tx == Some(out[i]))
    && (forall id :: id in items && items[id].tx.Some? && id !in ids ==>
          |ids| == max && forall i :: 0 <= i < |ids| ==> Less(ids[i], id))
  }

  /** The same along a strictly increasing prefix of the keys. */
  ghost predicate TakenSoFar(items: Items, max: nat, keys: seq<Octets>, k: nat, ids: seq<Octets>, out: seq<Transaction>)
    requires k <= |keys|
  {
    && |ids| == |out| <= max
    && StrictlyIncreasing(ids)
    && (forall i :: 0 <= i < |ids| ==> ids[i] in keys[..k] && ids[i] in items && items[ids[i]].tx == Some(out[i]))
    && (forall j :: 0 <= j < k && keys[j] in items && items[keys[j]].tx.Some? && keys[j] !in ids ==>
          |ids| == max && forall i :: 0 <= i < |ids| ==> Less(ids[i], keys[j]))
  }

  lemma TakeNext(items: Items, max: nat, keys: seq<Octets>, k: nat, ids: seq<Octets>, out: seq<Transaction>)
    requires StrictlyIncreasing(keys) && k < |keys| && |out| < max && keys[k] in items
    requires TakenSoFar(items, max, keys, k, ids, out)
    ensures items[keys[k]].tx.Some? ==>
              TakenSoFar(items, max, keys, k + 1, ids + [keys[k]], out + [items[keys[k]].tx.value])
    ensures items[keys[k]].tx.None? ==> TakenSoFar(items, max, keys, k + 1, ids, out)
  {
    forall i | 0 <= i < |ids| ensures Less(ids[i], keys[k]) && ids[i] in keys[..k + 1] {
      assert ids[i] in keys[..k];
      var j :| 0 <= j < k && keys[..k][j] == ids[i];
      assert Less(keys[j], keys[k]);
      assert keys[..k + 1][j] == ids[i];
    }
    assert keys[..k + 1][k] == keys[k];
  }

  lemma FullIsSnapshot(items: Items, max: nat, keys: seq<Octets>, k: nat, ids: seq<Octets>, out: seq<Transaction>)
    requires StrictlyIncreasing(keys) && k <= |keys| && TakenSoFar(items, max, keys, k, ids, out)
    requires forall id :: id in items <==> id in keys
    requires k == |keys| || |out| == max
    ensures IsSnapshot(items, max, ids, out)
  {
    forall id | id in items && items[id].tx.Some? && id !in ids
      ensures |ids| == max && forall i :: 0 <= i < |ids| ==> Less(ids[i], id)
    {
      assert id in keys;
      var j :| 0 <= j < |keys| && keys[j] == id;
      if j >= k {
        forall i | 0 <= i < |ids| ensures Less(ids[i], id) {
          assert ids[i] in keys[..k];
          var m :| 0 <= m < k && keys[..k][m] == ids[i];
          assert Less(keys[m], keys[j]);
        }
      }
    }
  }

  // ---------- draining ----------

  function Flatten(items: Items, order: seq<Octets>): seq<TransactionEntry> {
    if order == [] then []
    else
      var n := |order| - 1;
      Flatten(items, order[..n]) + (if order[n] in items then items[order[n]].entries else [])
  }

  function Cut(s: seq<TransactionEntry>, max: nat): seq<TransactionEntry> { s[..Min(|s|, max)] }

  lemma VisitNext(items: Items, order: seq<Octets>, id: Octets, max: nat)
    requires id in items && |Cut(Flatten(items, order), max)| < max
    ensures var out, entries := Cut(Flatten(items, order), max), items[id].entries;
            Cut(Flatten(items, order + [id]), max) == out + entries[..Min(|entries|, max - |out|)]
  {
    assert (order + [id])[..|order|] == order;
  }

  lemma {:induction false} FlattenExtends(items: Items, a: seq<Octets>, b: seq<Octets>)
    ensures Flatten(items, a) <= Flatten(items, a + b)
  {
    if b == [] {
      assert a + b == a;
    } else {
      var n := |b| - 1;
      FlattenExtends(items, a, b[..n]);
      assert (a + b)[..|a| + n] == a + b[..n];
    }
  }

  /** Stopping early loses nothing: the rest of the order would have been cut off. */
  lemma RestIsCutOff(items: Items, order: seq<Octets>, rest: seq<Octets>, max: nat)
    requires rest == [] || |Cut(Flatten(items, order), max)| >= max
    ensures Cut(Flatten(items, order + rest), max) == Cut(Flatten(items, order), max)
  {
    if rest == [] { assert order + rest == order; } else { FlattenExtends(items, order, rest); }
  }

  lemma OrderCompleted(keys: set<Octets>, order: seq<Octets>, todo: set<Octets>)
    requires Distinct(order) && todo <= keys && Elements(order) == keys - todo
    ensures var all := order + Majority.Listing(todo);
            Distinct(all) && Elements(all) == keys
    ensures todo == {} ==> Majority.Listing(todo) == []
  {
    var rest := Majority.Listing(todo);
    DistinctCardinality(rest);
    ElementsConcat(order, rest);
    DistinctConcat(order, rest);
  }

  lemma DistinctConcat(a: seq<Octets>, b: seq<Octets>)
    requires Distinct(a) && Distinct(b) && Elements(a) !! Elements(b)
    ensures Distinct(a + b)
  {
    forall i, j | 0 <= i < |a| && 0 <= j < |b| ensures a[i] != b[j] {
      assert a[i] in Elements(a) && b[j] in Elements(b);
    }
  }

  lemma OrderGrows(keys: set<Octets>, order: seq<Octets>, todo: set<Octets>, id: Octets)
    requires Distinct(order) && todo <= keys && Elements(order) == keys - todo && id in todo
    ensures Distinct(order + [id]) && Elements(order + [id]) == keys - (todo - {id})
  {
    ElementsConcat(order, [id]);
    ElementsSingle(id);
    DistinctConcat(order, [id]);
  }

  method TakeEntries(items: Items, maxEntries: nat) returns (out: seq<TransactionEntry>, ghost order: seq<Octets>)
    ensures Distinct(order) && Elements(order) == items.Keys
    ensures out == Cut(Flatten(items, order), maxEntries)
  {
    out, order := [], [];
    var todo := items.Keys;
    while todo != {} && |out| < maxEntries
      invariant todo <= items.Keys
      invariant Distinct(order) && Elements(order) == items.Keys - todo
      invariant out == Cut(Flatten(items, order), maxEntries)
      decreases todo
    {
      var id :| id in todo;
      var entries := items[id].entries;
      VisitNext(items, order, id, maxEntries);
      OrderGrows(items.Keys, order, todo, id);
      out := out + entries[..Min(|entries|, maxEntries - |out|)];
      order := order + [id];
      todo := todo - {id};
    }
    OrderCompleted(items.Keys, order, todo);
    RestIsCutOff(items, order, Majority.Listing(todo), maxEntries);
    order := order + Majority.Listing(todo);
  }

  // ---------- pooled transactions ----------

  function PooledTx(tx: Transaction, marker: MarkerEncoder, sender: Option<Hash>, now: nat): Item {
    Item(EntriesOf(tx, marker, sender), sender, Some(tx.core.nonce), Some(tx), now)
  }

  ghost predicate Derived(items: Items, marker: MarkerEncoder) {
    forall id :: id in items && items[id].tx.Some? ==>
      var tx := items[id].tx.value;
      IsSenderOf(tx, items[id].sender) && items[id] == PooledTx(tx, marker, items[id].sender, items[id].insertedAt)
  }

  lemma SenderOfUnique(tx: Transaction, a: Option<Hash>, b: Option<Hash>)
    requires IsSenderOf(tx, a) && IsSenderOf(tx, b)
    ensures a == b
  {
    if !IsMarker(tx) { SenderUnique(tx.core.entries, a, b); }
  }

  /** Every id along the order is a pooled protocol transaction whose transfers balance. */
  ghost predicate Balanced(items: Items, order: seq<Octets>) {
    forall id :: id in order ==> id in items && items[id].tx.Some? && Moved(items[id].tx.value) == 0
  }

  function ChargedTo(item: Item): nat { if item.tx.Some? then Charged(item.tx.value, item.sender) else 0 }

  /** What the transactions along the order are charged. */
  function ChargedOn(items: Items, order: seq<Octets>): nat {
    if order == [] then 0
    else
      var n := |order| - 1;
      ChargedOn(items, order[..n]) + (if order[n] in items then ChargedTo(items[order[n]]) else 0)
  }

  /** The entries of each net to what it is charged. */
  ghost predicate PaysAsCharged(items: Items, order: seq<Octets>) {
    forall id :: id in order ==> id in items && NetAmount(items[id].entries) == 0 - ChargedTo(items[id])
  }

  lemma PooledPay(items: Items, marker: MarkerEncoder, order: seq<Octets>)
    requires Derived(items, marker) && Balanced(items, order)
    ensures PaysAsCharged(items, order)
  {
    forall id | id in order ensures NetAmount(items[id].entries) == 0 - ChargedTo(items[id]) {
      EntriesNet(items[id].tx.value, marker, items[id].sender);
    }
  }

  lemma {:induction false} WholeNet(items: Items, order: seq<Octets>)
    requires PaysAsCharged(items, order)
    ensures NetAmount(Flatten(items, order)) == 0 - ChargedOn(items, order)
    decreases |order|
  {
    if order != [] {
      var n := |order| - 1;
      var front, last := order[..n], order[n];
      assert last in order && forall id :: id in front ==> id in order;
      WholeNet(items, front);
      NetAmountConcat(Flatten(items, front), items[last].entries);
    }
  }

  /** How many transactions, along the order, are taken with all their entries. */
  function WholeTaken(items: Items, order: seq<Octets>, max: nat): (k: nat)
    ensures k <= |order| && |Flatten(items, order[..k])| <= max
  {
    if |Flatten(items, order)| <= max then assert order[..|order|] == order; |order|
    else
      var front := order[..|order| - 1];
      var k := WholeTaken(items, front, max);
      assert order[..k] == front[..k];
      k
  }

  /** The entries taken of the one transaction that is cut in two, if any. */
  function Torn(items: Items, order: seq<Octets>, max: nat): seq<TransactionEntry> {
    var k := WholeTaken(items, order, max);
    if k == |order| || order[k] !in items then []
    else Cut(items[order[k]].entries, max - |Flatten(items, order[..k])|)
  }

  lemma {:induction false} CutSplits(items: Items, order: seq<Octets>, max: nat)
    ensures Cut(Flatten(items, order), max) ==
              Flatten(items, order[..WholeTaken(items, order, max)]) + Torn(items, order, max)
    decreases |order|
  {
    assert order[..|order|] == order;
    if |Flatten(items, order)| > max {
      var n := |order| - 1;
      var front := order[..n];
      assert front[..n] == front;
      CutConcat(Flatten(items, front), if order[n] in items then items[order[n]].entries else [], max);
      if |Flatten(items, front)| > max {
        CutSplits(items, front, max);
        SameSplit(items, order, max);
      }
    }
  }

  lemma CutConcat(a: seq<TransactionEntry>, b: seq<TransactionEntry>, max: nat)
    ensures Cut(a + b, max) == if |a| <= max then a + Cut(b, max - |a|) else Cut(a, max)
  {}

  lemma SameSplit(items: Items, order: seq<Octets>, max: nat)
    requires order != [] && |Flatten(items, order)| > max && |Flatten(items, order[..|order| - 1])| > max
    ensures var front := order[..|order| - 1];
            var k := WholeTaken(items, front, max);
            WholeTaken(items, order, max) == k && order[..k] == front[..k] &&
            Torn(items, order, max) == Torn(items, front, max)
  {
    var front := order[..|order| - 1];
    assert front[..|front|] == front;
    assert order[..WholeTaken(items, front, max)] == front[..WholeTaken(items, front, max)];
  }

  /** What the transactions taken whole are charged. */
  function ChargedWhole(items: Items, order: seq<Octets>, max: nat): nat {
    ChargedOn(items, order[..WholeTaken(items, order, max)])
  }

  lemma DrainNet(items: Items, order: seq<Octets>, max: nat)
    requires PaysAsCharged(items, order)
    ensures NetAmount(Cut(Flatten(items, order), max)) ==
              NetAmount(Torn(items, order, max)) - ChargedWhole(items, order, max)
  {
    var whole := order[..WholeTaken(items, order, max)];
    assert forall id :: id in whole ==> id in order;
    WholeNet(items, whole);
    CutSplits(items, order, max);
    NetAmountConcat(Flatten(items, whole), Torn(items, order, max));
  }

  lemma FeesOfNet(H: HashFn, cycle: U64, entries: seq<TransactionEntry>, net: int)
    requires NetAmount(entries) == net
    ensures BuildPartial(H, cycle, entries).totalFees == Max(0, Min(0 - net, MAX_U64))
  {
    FeesDependOnBatch(H, cycle, entries);
  }

  /** Construction finds what was charged less the torn entries; and exactly what was charged if
      and only if those cancel out, or the clamps at zero and u64 hide them. */
  ghost predicate FeesFound(H: HashFn, cycle: U64, entries: seq<TransactionEntry>, charged: int, torn: int) {
    var found := BuildPartial(H, cycle, entries).totalFees;
    && found == Max(0, Min(charged - torn, MAX_U64))
    && (found == Min(charged, MAX_U64) <==>
          torn == 0 || (charged == 0 && torn > 0) || (charged >= MAX_U64 && charged - torn >= MAX_U64))
  }

  lemma SplitFees(H: HashFn, cycle: U64, entries: seq<TransactionEntry>, charged: nat, torn: int)
    requires NetAmount(entries) == torn - charged
    ensures FeesFound(H, cycle, entries, charged, torn)
  {
    FeesOfNet(H, cycle, entries, torn - charged);
  }

  /** Drained whole, that is what all of them are charged. */
  lemma WholeDrain(items: Items, order: seq<Octets>, max: nat)
    requires |Flatten(items, order)| <= max
    ensures ChargedWhole(items, order, max) == ChargedOn(items, order) && Torn(items, order, max) == []
  {
    assert order[..|order|] == order;
  }

  /** Draining a pool of balanced protocol transactions, in whatever order and wherever it is cut,
      hands construction the fees charged to the transactions taken whole, less what the entries
      of the one torn apart add up to. */
  lemma DrainedFees(H: HashFn, cycle: U64, items: Items, marker: MarkerEncoder, order: seq<Octets>, max: nat,
                    drained: seq<TransactionEntry>)
    requires Derived(items, marker) && Balanced(items, order) && drained == Cut(Flatten(items, order), max)
    ensures FeesFound(H, cycle, drained, ChargedWhole(items, order, max), NetAmount(Torn(items, order, max)))
  {
    PooledPay(items, marker, order);
    DrainNet(items, order, max);
    SplitFees(H, cycle, drained, ChargedWhole(items, order, max), NetAmount(Torn(items, order, max)));
  }

  function Transfer(a: Hash, b: Hash): Transaction {
    Transaction(
      TxCore(NonConfidentialTransfer, [TxEntry(a, NonConfidential(-7)), TxEntry(b, NonConfidential(7))], 1, 0, 5, []),
      SCHNORR_V1, [0], None, 0)
  }

  /** A valid transfer of 7 with a fee of 5, drained alone: whole it yields 5, cut after its debit
      7, and cut after its credit nothing. */
  lemma CutDrainMisjudges(H: HashFn, cycle: U64, marker: MarkerEncoder, a: Hash, b: Hash, id: Octets)
    ensures var tx := Transfer(a, b);
            var items: Items := map[id := PooledTx(tx, marker, Some(a), 0)];
            && Acceptable(tx, 0) && Moved(tx) == 0 && Derived(items, marker)
            && BuildPartial(H, cycle, Cut(Flatten(items, [id]), 3)).totalFees == 5
            && BuildPartial(H, cycle, Cut(Flatten(items, [id]), 1)).totalFees == 7
            && BuildPartial(H, cycle, Cut(Flatten(items, [id]), 2)).totalFees == 0
  {
    var items: Items := map[id := PooledTx(Transfer(a, b), marker, Some(a), 0)];
    TransferEntries(a, b, marker);
    FlattenOne(items, id);
    var all := Flatten(items, [id]);
    NetsOfCuts(all, TransactionEntry(a, -7, [0]), TransactionEntry(b, 7, [0]), TransactionEntry(a, -5, [0]));
    FeesOfNet(H, cycle, Cut(all, 3), -5);
    FeesOfNet(H, cycle, Cut(all, 1), -7);
    FeesOfNet(H, cycle, Cut(all, 2), 0);
  }

  lemma FlattenOne(items: Items, id: Octets)
    requires id in items
    ensures Flatten(items, [id]) == items[id].entries
  {
    assert [id][..0] == [];
  }

  lemma TransferEntries(a: Hash, b: Hash, marker: MarkerEncoder)
    ensures var tx := Transfer(a, b);
            && IsSenderOf(tx, Some(a)) && Moved(tx) == 0 && Acceptable(tx, 0)
            && EntriesOf(tx, marker, Some(a)) ==
               [TransactionEntry(a, -7, [0]), TransactionEntry(b, 7, [0]), TransactionEntry(a, -5, [0])]
  {
    var entries := Transfer(a, b).core.entries;
    assert entries[0] in entries && Debits(entries[0]);
    assert entries[..1] == [entries[0]] && entries[..1][..0] == [];
    assert VisibleSum(entries[..1]) == -7;
    assert Visible(entries[..1], [0]) == [TransactionEntry(a, -7, [0])];
  }

  lemma NetsOfCuts(s: seq<TransactionEntry>, x: TransactionEntry, y: TransactionEntry, z: TransactionEntry)
    requires s == [x, y, z]
    ensures NetAmount(Cut(s, 1)) == x.amount && NetAmount(Cut(s, 2)) == x.amount + y.amount
    ensures NetAmount(Cut(s, 3)) == x.amount + y.amount + z.amount
  {
    assert Cut(s, 1) == [x] && Cut(s, 2) == [x, y] && Cut(s, 3) == [x, y, z];
    assert [x][1..] == [] && [y][1..] == [] && [z][1..] == [];
    assert [x, y][1..] == [y] && [x, y, z][1..] == [y, z] && [y, z][1..] == [z];
    assert NetAmount([y, z]) == y.amount + NetAmount([z]);
  }

  // ---------- the pool ----------

  class Pool {
    var items: Items
    const ttl: nat
    const maxTxs: nat
    const maxPerSender: nat
    const marker: MarkerEncoder
    var dropsFull: U64
    var dropsPerSender: U64

    /** Neither limit is ever exceeded, and sender, nonce and entries of a pooled transaction are
        those derived from it. */
    ghost predicate Valid()
      reads this
    {
      |items| <= maxTxs && (forall s :: |OfSender(items, s)| <= maxPerSender) && Derived(items, marker)
    }

    constructor (ttl: nat, maxTxs: nat, maxPerSender: nat, marker: MarkerEncoder)
      ensures Valid() && items == map[] && this.ttl == ttl && this.marker == marker && this.maxTxs == Max(maxTxs, 1) &&
                this.maxPerSender == Max(maxPerSender, 1)
      ensures dropsFull == 0 && dropsPerSender == 0
    {
      items := map[];
      this.ttl := ttl;
      this.marker := marker;
      this.maxTxs := Max(maxTxs, 1);
      this.maxPerSender := Max(maxPerSender, 1);
      dropsFull, dropsPerSender := 0, 0;
      new;
      forall s ensures OfSender(items, s) == {} {}
    }

    method EvictExpired(now: nat)
      requires Valid()
      modifies this
      ensures Valid() && items == Unexpired(old(items), ttl, now)
      ensures dropsFull == old(dropsFull) && dropsPerSender == old(dropsPerSender)
    {
      EvictionShrinks(items, ttl, now);
      items := Unexpired(items, ttl, now);
    }

    /** A gossiped entry list without sender. */
    method Insert(id: Hash, entries: seq<TransactionEntry>, now: nat) returns (ok: bool)
      requires Valid()
      modifies this
      ensures Valid()
      ensures ok <==> |Unexpired(old(items), ttl, now)| < maxTxs && id !in Unexpired(old(items), ttl, now)
      ensures items == if ok then Unexpired(old(items), ttl, now)[id := Item(entries, None, None, None, now)]
                       else Unexpired(old(items), ttl, now)
      ensures dropsFull == old(dropsFull) && dropsPerSender == old(dropsPerSender)
    {
      EvictExpired(now);
      if |items| >= maxTxs { return false; }
      if id in items { return false; }
      AddedCounts(items, id, Item(entries, None, None, None, now));
      items := items[id := Item(entries, None, None, None, now)];
      ok := true;
    }

    /** Refuses what fails the transaction's own checks before anything else happens. */
    method InsertProtocol(id: Hash, tx: Transaction, nowSecs: U64, now: nat)
      returns (ok: bool, ghost sender: Option<Hash>)
      requires Valid()
      modifies this
      ensures Valid() && IsSenderOf(tx, sender)
      ensures ok <==>
                && Acceptable(tx, nowSecs)
                && |Unexpired(old(items), ttl, now)| < maxTxs && id !in Unexpired(old(items), ttl, now)
                && (sender.Some? ==> |OfSender(Unexpired(old(items), ttl, now), sender.value)| < maxPerSender)
      ensures !Acceptable(tx, nowSecs) ==> items == old(items)
      ensures Acceptable(tx, nowSecs) && !ok ==> items == Unexpired(old(items), ttl, now)
      ensures ok ==> items == Unexpired(old(items), ttl, now)[id := PooledTx(tx, marker, sender, now)]
      ensures ok ==>
                && items[id].tx == Some(tx) && items[id].sender == sender && items[id].nonce == Some(tx.core.nonce)
                && items[id].insertedAt == now && items[id].entries == EntriesOf(tx, marker, sender)
      ensures var pool := Unexpired(old(items), ttl, now);
              && dropsFull == SatAdd(old(dropsFull), if Acceptable(tx, nowSecs) && |pool| >= maxTxs then 1 else 0)
              && dropsPerSender == SatAdd(old(dropsPerSender),
                   if Acceptable(tx, nowSecs) && |pool| < maxTxs && id !in pool && !ok then 1 else 0)
    {
      var payer := SenderPubkey(tx);
      sender := payer;
      if !Acceptable(tx, nowSecs) { return false, sender; }
      EvictExpired(now);
      if |items| >= maxTxs {
        dropsFull := SatAdd(dropsFull, 1);
        return false, sender;
      }
      if id in items { return false, sender; }
      if payer.Some? {
        var count := CountOfSender(items, payer.value);
        if count >= maxPerSender {
          dropsPerSender := SatAdd(dropsPerSender, 1);
          return false, sender;
        }
      }
      var entries, found := ToConsensusEntries(tx, marker);
      SenderOfUnique(tx, payer, found);
      var item := Item(entries, found, Some(tx.core.nonce), Some(tx), now);
      AddedCounts(items, id, item);
      items := items[id := item];
      ok := true;
    }

    /** The unexpired entries in some order of the transactions, cut at `maxEntries`. */
    method FreezeAndDrain(maxEntries: nat, now: nat) returns (out: seq<TransactionEntry>, ghost order: seq<Octets>)
      requires Valid()
      modifies this
      ensures Valid() && items == map[]
      ensures Distinct(order) && Elements(order) == Unexpired(old(items), ttl, now).Keys
      ensures out == Cut(Flatten(Unexpired(old(items), ttl, now), order), maxEntries)
      ensures dropsFull == old(dropsFull) && dropsPerSender == old(dropsPerSender)
    {
      EvictExpired(now);
      out, order := TakeEntries(items, maxEntries);
      items := map[];
      forall s ensures OfSender(items, s) == {} {}
    }

    /** Nothing is removed but what has expired. */
    method SnapshotProtocolTxs(max: nat, now: nat) returns (out: seq<Transaction>, ghost ids: seq<Octets>)
      requires Valid()
      modifies this
      ensures Valid() && items == Unexpired(old(items), ttl, now)
      ensures IsSnapshot(items, max, ids, out)
      ensures dropsFull == old(dropsFull) && dropsPerSender == old(dropsPerSender)
    {
      EvictExpired(now);
      var keys := Majority.SortedKeys(items.Keys);
      assert forall id :: id in keys <==> id in Elements(keys);
      out, ids := [], [];
      for k := 0 to |keys|
        invariant items == Unexpired(old(items), ttl, now) && Valid()
        invariant dropsFull == old(dropsFull) && dropsPerSender == old(dropsPerSender)
        invariant TakenSoFar(items, max, keys, k, ids, out)
      {
        if |out| >= max {
          FullIsSnapshot(items, max, keys, k, ids, out);
          return;
        }
        assert keys[k] in items;
        TakeNext(items, max, keys, k, ids, out);
        var item := items[keys[k]];
        if item.tx.Some? {
          out := out + [item.tx.value];
          ids := ids + [keys[k]];
        }
      }
      FullIsSnapshot(items, max, keys, |keys|, ids, out);
    }
  }

  method CountOfSender(items: Items, sender: Hash) returns (count: nat)
    ensures count == |OfSender(items, sender)|
  {
    count := 0;
    var todo := items.Keys;
    ghost var counted: set<Octets> := {};
    while todo != {}
      invariant todo <= items.Keys && count == |counted|
      invariant counted == set id | id in items && id !in todo && items[id].sender == Some(sender)
      decreases todo
    {
      var id :| id in todo;
      todo := todo - {id};
      if items[id].sender == Some(sender) {
        count := count + 1;
        counted := counted + {id};
      }
    }
    assert counted == OfSender(items, sender);
  }

  method MaxNonceForSender(items: Items, sender: Hash) returns (max: Option<U64>)
    ensures max.None? <==> forall id :: id in OfSender(items, sender) ==> items[id].nonce.None?
    ensures max.Some? ==>
              && (exists id :: id in OfSender(items, sender) && items[id].nonce == max)
              && (forall id :: id in OfSender(items, sender) && items[id].nonce.Some? ==>
                    items[id].nonce.value <= max.value)
  {
    max := None;
    var todo := items.Keys;
    while todo != {}
      invariant todo <= items.Keys
      invariant max.None? <==> forall id :: id in OfSender(items, sender) - todo ==> items[id].nonce.None?
      invariant max.Some? ==> exists id :: id in OfSender(items, sender) - todo && items[id].nonce == max
      invariant max.Some? ==> forall id :: id in OfSender(items, sender) - todo && items[id].nonce.Some? ==>
                  items[id].nonce.value <= max.value
      decreases todo
    {
      var id :| id in todo;
      var item := items[id];
      ghost var before := OfSender(items, sender) - todo;
      todo := todo - {id};
      ghost var after := OfSender(items, sender) - todo;
      assert after == if item.sender == Some(sender) then before + {id} else before;
      if item.sender == Some(sender) && item.nonce.Some? {
        assert id in after;
        max := Some(if max.Some? then Max(max.value, item.nonce.value) else item.nonce.value);
      }
    }
    assert OfSender(items, sender) - {} == OfSender(items, sender);
  }
}
