/** Batched pruning of per-cycle history behind a persisted progress marker. */
module Pruning {
  import opened Binary
  import opened Store
  import opened Checkpoint
  import opened Recovery

  datatype Report = Report(from: U64, to: U64)

  /** How the stored list of transaction ids of a cycle is read. */
  type TxIdReader = Octets -> seq<Hash>

  // ---------- one run ----------

  function Limit(head: U64, keep: U64): U64 { SatSub(SatSub(head, keep), 1) }

  function StartAfter(marker: Option<U64>): U64 {
    match marker case None => 0 case Some(last) => SatAdd(last, 1)
  }

  /** The cycles one run removes. */
  function Range(head: U64, marker: Option<U64>, keep: U64, batch: U64): Option<Report> {
    if keep == 0 || Limit(head, keep) == 0 || StartAfter(marker) > Limit(head, keep) then None
    else
      var start := StartAfter(marker);
      Some(Report(start, Min(Limit(head, keep), SatAdd(start, SatSub(batch, 1)))))
  }

  function HeadOf(m: Meta): U64 { match GetU64(m, AppliedCycle) case None => 0 case Some(h) => h }

  function TxIdsAt(m: Meta, read: TxIdReader, c: U64): seq<Hash> {
    match Get(m, TxIds(c)) case None => [] case Some(b) => read(b)
  }

  predicate OfTransactions(ids: seq<Hash>, k: Key) { (k.TxRaw? || k.TxMeta?) && k.txid in ids }

  predicate OfHistory(c: U64, k: Key) { (k.History? || k.TxBatchCommit?) && k.cycle == c }

  /** Everything kept under one cycle: its transactions, its index and its history. */
  predicate OfCycle(m: Meta, read: TxIdReader, c: U64, k: Key) {
    || OfTransactions(TxIdsAt(m, read, c), k)
    || k == TxIds(c)
    || OfHistory(c, k)
    || (k.CycleByHash? && Get(m, History(LsuHash, c)) == Some(k.hash))
  }

  ghost function WithoutCycle(m: Meta, read: TxIdReader, c: U64): Meta {
    map k | k in m && !OfCycle(m, read, c, k) :: m[k]
  }

  /** The metadata after `n` cycles starting at `from` are removed one by one. */
  ghost function Pruned(m: Meta, read: TxIdReader, from: U64, n: nat): Meta
    requires from + n <= MAX_U64 + 1
  {
    if n == 0 then m else WithoutCycle(Pruned(m, read, from, n - 1), read, from + n - 1)
  }

  /** The cycle's own list names the transaction. */
  ghost predicate ListedAt(m: Meta, read: TxIdReader, c: U64, x: Hash) {
    TxIds(c) in m && x in read(m[TxIds(c)])
  }

  ghost predicate HashedAt(m: Meta, c: U64, h: Hash) { History(LsuHash, c) in m && m[History(LsuHash, c)] == h }

  /** What belongs to the cycles of a range: their history, index and commitment, the transactions
      their indexes list, and the way back from their update hashes. */
  ghost predicate OfRange(m: Meta, read: TxIdReader, from: int, to: int, k: Key) {
    match k
    case History(_, c) => from <= c <= to
    case TxIds(c) => from <= c <= to
    case TxBatchCommit(c) => from <= c <= to
    case TxRaw(x) => exists c: U64 :: from <= c <= to && ListedAt(m, read, c, x)
    case TxMeta(x) => exists c: U64 :: from <= c <= to && ListedAt(m, read, c, x)
    case CycleByHash(h) => exists c: U64 :: from <= c <= to && HashedAt(m, c, h)
    case _ => false
  }

  ghost predicate KeyPruned(m: Meta, read: TxIdReader, t: Meta, from: int, to: int, k: Key) {
    Get(t, k) == if OfRange(m, read, from, to, k) then None else Get(m, k)
  }

  /** `t` is `m` without exactly what belongs to those cycles. */
  ghost predicate Prunes(m: Meta, read: TxIdReader, t: Meta, from: int, to: int) {
    forall k :: KeyPruned(m, read, t, from, to, k)
  }

  lemma WithoutCyclePrunes(m: Meta, read: TxIdReader, c: U64)
    ensures Prunes(m, read, WithoutCycle(m, read, c), c, c)
  {
    forall k ensures KeyPruned(m, read, WithoutCycle(m, read, c), c, c, k) { OneCycle(m, read, c, k); }
  }

  lemma OneCycle(m: Meta, read: TxIdReader, c: U64, k: Key)
    ensures OfRange(m, read, c, c, k) <==> OfCycle(m, read, c, k)
  {
    match k
    case TxRaw(x) => assert ListedAt(m, read, c, x) <==> x in TxIdsAt(m, read, c);
    case TxMeta(x) => assert ListedAt(m, read, c, x) <==> x in TxIdsAt(m, read, c);
    case CycleByHash(h) => assert HashedAt(m, c, h) <==> Get(m, History(LsuHash, c)) == Some(h);
    case _ =>
  }

  /** Removing earlier cycles does not change what belongs to the next. */
  lemma LaterUntouched(m: Meta, read: TxIdReader, mid: Meta, from: int, to: int, k: Key)
    requires from <= to && Prunes(m, read, mid, from, to - 1)
    ensures OfRange(mid, read, to, to, k) <==> OfRange(m, read, to, to, k)
  {
    if 0 <= to <= MAX_U64 {
      assert KeyPruned(m, read, mid, from, to - 1, TxIds(to));
      assert KeyPruned(m, read, mid, from, to - 1, History(LsuHash, to));
      match k
      case TxRaw(x) => assert ListedAt(mid, read, to, x) <==> ListedAt(m, read, to, x);
      case TxMeta(x) => assert ListedAt(mid, read, to, x) <==> ListedAt(m, read, to, x);
      case CycleByHash(h) => assert HashedAt(mid, to, h) <==> HashedAt(m, to, h);
      case _ =>
    }
  }

  lemma RangeGrows(m: Meta, read: TxIdReader, from: int, to: int, k: Key)
    requires from <= to
    ensures OfRange(m, read, from, to, k) <==> OfRange(m, read, from, to - 1, k) || OfRange(m, read, to, to, k)
  {}

  lemma PrunesTogether(m: Meta, read: TxIdReader, mid: Meta, t: Meta, from: int, to: int)
    requires from <= to && Prunes(m, read, mid, from, to - 1) && Prunes(mid, read, t, to, to)
    ensures Prunes(m, read, t, from, to)
  {
    forall k ensures KeyPruned(m, read, t, from, to, k) {
      assert KeyPruned(m, read, mid, from, to - 1, k) && KeyPruned(mid, read, t, to, to, k);
      LaterUntouched(m, read, mid, from, to, k);
      RangeGrows(m, read, from, to, k);
    }
  }

  lemma NothingPruned(m: Meta, read: TxIdReader, from: int, to: int)
    requires to < from
    ensures Prunes(m, read, m, from, to)
  {
    forall k ensures KeyPruned(m, read, m, from, to, k) { assert !OfRange(m, read, from, to, k); }
  }

  /** Removing the cycles one by one removes exactly what belongs to them. */
  lemma {:induction false} PrunedExactly(m: Meta, read: TxIdReader, from: U64, n: nat)
    requires from + n <= MAX_U64 + 1
    ensures Prunes(m, read, Pruned(m, read, from, n), from, from + n - 1)
    decreases n
  {
    if n == 0 {
      NothingPruned(m, read, from, from - 1);
    } else {
      var before := Pruned(m, read, from, n - 1);
      PrunedExactly(m, read, from, n - 1);
      WithoutCyclePrunes(before, read, from + n - 1);
      PrunesTogether(m, read, before, WithoutCycle(before, read, from + n - 1), from, from + n - 1);
    }
  }

  method DeleteTransactions(store: Storage, ids: seq<Hash>)
    modifies store
    ensures var m := old(store.db).meta;
            store.db == old(store.db).(meta := map k | k in m && !OfTransactions(ids, k) :: m[k])
    ensures store.snapshots == old(store.snapshots) && store.rootCache == old(store.rootCache)
  {
    ghost var m := store.db.meta;
    for i := 0 to |ids|
      invariant store.db == old(store.db).(meta := map k | k in m && !OfTransactions(ids[..i], k) :: m[k])
      invariant store.snapshots == old(store.snapshots) && store.rootCache == old(store.rootCache)
    {
      assert ids[..i + 1] == ids[..i] + [ids[i]];
      store.DeleteMetadata(TxRaw(ids[i]));
      store.DeleteMetadata(TxMeta(ids[i]));
    }
    assert ids[..|ids|] == ids;
  }

  method DeleteHistory(store: Storage, c: U64)
    modifies store
    ensures var m := old(store.db).meta;
            store.db == old(store.db).(meta := map k | k in m && !OfHistory(c, k) :: m[k])
    ensures store.snapshots == old(store.snapshots) && store.rootCache == old(store.rootCache)
  {
    store.DeleteMetadata(History(LsuBytes, c));
    store.DeleteMetadata(History(LsuHash, c));
    store.DeleteMetadata(History(LsuCid, c));
    store.DeleteMetadata(History(LsuStateRoot, c));
    store.DeleteMetadata(TxBatchCommit(c));
    forall k: Key
      ensures OfHistory(c, k) <==> k in {History(LsuBytes, c), History(LsuHash, c), History(LsuCid, c),
                                         History(LsuStateRoot, c), TxBatchCommit(c)}
    {
      if k.History? { match k.field case LsuBytes => case LsuHash => case LsuStateRoot => case LsuCid => }
    }
  }

  method DeleteCycle(store: Storage, read: TxIdReader, c: U64)
    modifies store
    ensures store.db == old(store.db).(meta := WithoutCycle(old(store.db).meta, read, c))
    ensures store.snapshots == old(store.snapshots) && store.rootCache == old(store.rootCache)
  {
    ghost var m := store.db.meta;
    var ids := TxIdsAt(store.db.meta, read, c);
    DeleteTransactions(store, ids);
    store.DeleteMetadata(TxIds(c));
    var hash := Get(store.db.meta, History(LsuHash, c));
    assert hash == Get(m, History(LsuHash, c));
    DeleteHistory(store, c);
    if hash.Some? && |hash.value| == 32 {
      store.DeleteMetadata(CycleByHash(hash.value));
    }
    assert store.db.meta == WithoutCycle(m, read, c);
  }

  method DeleteRange(store: Storage, read: TxIdReader, from: U64, to: U64)
    requires from <= to
    modifies store
    ensures store.db == old(store.db).(meta := Pruned(old(store.db).meta, read, from, to - from + 1))
    ensures store.snapshots == old(store.snapshots) && store.rootCache == old(store.rootCache)
  {
    ghost var m := store.db.meta;
    for c := from to to + 1
      invariant store.db == old(store.db).(meta := Pruned(m, read, from, c - from))
      invariant store.snapshots == old(store.snapshots) && store.rootCache == old(store.rootCache)
    {
      DeleteCycle(store, read, c);
    }
  }

  function RangeOf(m: Meta, keep: U64, batch: U64): (r: Option<Report>)
    ensures r.Some? ==> r.value.from <= r.value.to
  {
    Range(HeadOf(m), GetU64(m, PrunedUpTo), keep, batch)
  }

  /** A run's batch size, and whether its progress marker could be written. */
  datatype Run = Run(batch: U64, marked: bool)

  ghost function AfterRun(m: Meta, read: TxIdReader, keep: U64, run: Run): Meta {
    AfterCut(m, read, RangeOf(m, keep, run.batch), run.marked)
  }

  ghost function AfterCut(m: Meta, read: TxIdReader, cut: Option<Report>, marked: bool): Meta
    requires cut.Some? ==> cut.value.from <= cut.value.to
  {
    match cut
    case None => m
    case Some(r) => Marked(Pruned(m, read, r.from, r.to - r.from + 1), marked, r.to)
  }

  function Marked(m: Meta, marked: bool, to: U64): Meta {
    if marked then m[PrunedUpTo := U64Bytes(to)] else m
  }

  method MarkProgress(store: Storage, end: U64, marked: bool)
    modifies store
    ensures store.db == old(store.db).(meta := Marked(old(store.db).meta, marked, end))
    ensures store.snapshots == old(store.snapshots) && store.rootCache == old(store.rootCache)
  {
    if marked { store.SetMetadata(PrunedUpTo, U64Bytes(end)); }
  }

  /** `marked` is whether the progress marker could be written. */
  method PruneOnce(store: Storage, read: TxIdReader, keep: U64, batch: U64, marked: bool) returns (r: Option<Report>)
    modifies store
    ensures r == RangeOf(old(store.db).meta, keep, batch)
    ensures store.db == old(store.db).(meta := AfterRun(old(store.db).meta, read, keep, Run(batch, marked)))
    ensures store.snapshots == old(store.snapshots) && store.rootCache == old(store.rootCache)
  {
    r := NextRange(store.db.meta, keep, batch);
    if r.Some? {
      DeleteRange(store, read, r.value.from, r.value.to);
      MarkProgress(store, r.value.to, marked);
    }
  }

  method NextRange(m: Meta, keep: U64, batch: U64) returns (r: Option<Report>)
    ensures r == RangeOf(m, keep, batch)
  {
    if keep == 0 { return None; }
    var limit := Limit(HeadOf(m), keep);
    if limit == 0 { return None; }
    var start := StartAfter(GetU64(m, PrunedUpTo));
    if start > limit { return None; }
    r := Some(Report(start, Min(limit, SatAdd(start, SatSub(batch, 1)))));
  }

  /** A cut erases exactly what belongs to its range. */
  lemma CutErases(m: Meta, read: TxIdReader, r: Report, marked: bool, k: Key)
    requires r.from <= r.to && k != PrunedUpTo
    ensures KeyPruned(m, read, AfterCut(m, read, Some(r), marked), r.from, r.to, k)
  {
    PrunedExactly(m, read, r.from, r.to - r.from + 1);
    MarkedErases(m, read, Pruned(m, read, r.from, r.to - r.from + 1), r, marked, k);
  }

  lemma MarkedErases(m: Meta, read: TxIdReader, t: Meta, r: Report, marked: bool, k: Key)
    requires Prunes(m, read, t, r.from, r.to) && k != PrunedUpTo
    ensures KeyPruned(m, read, Marked(t, marked, r.to), r.from, r.to, k)
  {
    assert KeyPruned(m, read, t, r.from, r.to, k);
  }

  /** It moves the marker to its end if that could be written. */
  lemma CutMarks(m: Meta, read: TxIdReader, r: Report, marked: bool)
    requires r.from <= r.to
    ensures GetU64(AfterCut(m, read, Some(r), marked), PrunedUpTo) ==
              if marked then Some(r.to) else GetU64(m, PrunedUpTo)
  {
    PrunedExactly(m, read, r.from, r.to - r.from + 1);
    MarkedMarker(m, read, Pruned(m, read, r.from, r.to - r.from + 1), r, marked);
  }

  lemma MarkedMarker(m: Meta, read: TxIdReader, t: Meta, r: Report, marked: bool)
    requires Prunes(m, read, t, r.from, r.to)
    ensures GetU64(Marked(t, marked, r.to), PrunedUpTo) == if marked then Some(r.to) else GetU64(m, PrunedUpTo)
  {
    assert KeyPruned(m, read, t, r.from, r.to, PrunedUpTo);
    U64RoundTrip(r.to);
  }

  // ---------- any sequence of runs ----------

  /** What happens to a store: a pruning run, the restore of a snapshot, or anything else, which
      may move the head anywhere and write what it likes, only not the marker. */
  datatype Move = Prune(keep: U64, run: Run) | Restoring(snap: Meta, cp: Record) | Other

  ghost predicate Follows(m: Meta, move: Move, read: TxIdReader, t: Meta) {
    match move
    case Prune(keep, run) => t == AfterRun(m, read, keep, run)
    case Restoring(snap, cp) => RestoredTo(m, snap, cp, HeadOf(m), t)
    case Other => GetU64(t, PrunedUpTo) == GetU64(m, PrunedUpTo)
  }

  /** The stores before and after each of the moves. */
  ghost predicate Chain(stores: seq<Meta>, moves: seq<Move>, read: TxIdReader) {
    |stores| == |moves| + 1 && forall i :: 0 <= i < |moves| ==> Follows(stores[i], moves[i], read, stores[i + 1])
  }

  /** The range a move cuts out of a store. */
  function Cut(m: Meta, move: Move): Option<Report> {
    if move.Prune? then RangeOf(m, move.keep, move.run.batch) else None
  }

  lemma RangeBounds(head: U64, marker: Option<U64>, keep: U64, batch: U64)
    ensures var r := Range(head, marker, keep, batch);
            r.Some? ==>
              && keep > 0 && r.value.from == StartAfter(marker) <= r.value.to && r.value.to + keep < head
              && (r.value.to - r.value.from + 1 == Max(batch, 1) ||
                  (r.value.to - r.value.from + 1 < batch && r.value.to + keep + 1 == head))
    ensures Range(head, marker, keep, batch).None? <==>
              keep == 0 || head <= keep + 1 || StartAfter(marker) + keep + 1 > head
  {}

  /** The range a run cuts starts right after the marker, ends more than `keep` cycles behind the
      head that very run found, and is a full batch unless it reaches that limit. A run cuts
      nothing only if there is nothing to cut or pruning is off. */
  ghost predicate CutInBounds(m: Meta, move: Move) {
    if Cut(m, move).None? then
      move.Prune? ==>
        move.keep == 0 || HeadOf(m) <= move.keep + 1 || StartAfter(GetU64(m, PrunedUpTo)) + move.keep + 1 > HeadOf(m)
    else
      var c := Cut(m, move).value;
      && move.keep > 0 && c.from == StartAfter(GetU64(m, PrunedUpTo)) <= c.to
      && c.to + move.keep < HeadOf(m)
      && (c.to - c.from + 1 == Max(move.run.batch, 1) ||
          (c.to - c.from + 1 < move.run.batch && c.to + move.keep + 1 == HeadOf(m)))
  }

  lemma CutsInBounds(m: Meta, move: Move)
    ensures CutInBounds(m, move)
  {
    if move.Prune? { RangeBounds(HeadOf(m), GetU64(m, PrunedUpTo), move.keep, move.run.batch); }
  }

  /** The head is the last applied cycle, and zero before anything was applied. */
  lemma PruningFollowsHead(m: Meta, keep: U64, run: Run, head: U64)
    requires GetU64(m, AppliedCycle) == Some(head) || (GetU64(m, AppliedCycle).None? && head == 0)
    ensures Cut(m, Prune(keep, run)).Some? ==> Cut(m, Prune(keep, run)).value.to + keep < head
  {
    CutsInBounds(m, Prune(keep, run));
  }

  /** The cut was made and its end was written down. */
  ghost predicate Advances(m: Meta, move: Move) { Cut(m, move).Some? && move.run.marked }

  /** The marker after a move: the end of what was cut, the snapshot's own marker, or as before. */
  lemma MarkerAfter(m: Meta, move: Move, read: TxIdReader, t: Meta)
    requires Follows(m, move, read, t)
    ensures GetU64(t, PrunedUpTo) ==
              if Advances(m, move) then Some(Cut(m, move).value.to)
              else if move.Restoring? then GetU64(move.snap, PrunedUpTo) else GetU64(m, PrunedUpTo)
  {
    match move
    case Prune(keep, run) =>
      if Cut(m, move).Some? { CutMarks(m, read, Cut(m, move).value, run.marked); }
    case Restoring(snap, cp) => assert Get(t, PrunedUpTo) == RestoredValue(m, snap, cp, HeadOf(m), PrunedUpTo);
    case Other =>
  }

  /** No restore from `i` up to `j`. */
  ghost predicate NoRestore(moves: seq<Move>, i: nat, j: nat) {
    forall k :: i <= k < j && k < |moves| ==> !moves[k].Restoring?
  }

  ghost predicate NoAdvance(stores: seq<Meta>, moves: seq<Move>, i: nat, j: nat) {
    forall k :: i <= k < j && k < |moves| && k < |stores| ==> !Advances(stores[k], moves[k])
  }

  /** Without a restore the marker never falls back, and it stays where it is until the next cut. */
  lemma {:induction false} MarkerStays(stores: seq<Meta>, moves: seq<Move>, read: TxIdReader, i: nat, j: nat)
    requires Chain(stores, moves, read) && i <= j <= |moves| && NoRestore(moves, i, j)
    ensures var was, now := GetU64(stores[i], PrunedUpTo), GetU64(stores[j], PrunedUpTo);
            && (was.Some? ==> now.Some? && now.value >= was.value)
            && (NoAdvance(stores, moves, i, j) ==> now == was)
    decreases j
  {
    if i < j {
      MarkerStays(stores, moves, read, i, j - 1);
      MarkerAfter(stores[j - 1], moves[j - 1], read, stores[j]);
      CutsInBounds(stores[j - 1], moves[j - 1]);
    }
  }

  /** A cycle that was cut and written down is cut again only after a restore: until then later
      ranges lie above, and consecutive ones leave no gap. */
  lemma RangesAscend(stores: seq<Meta>, moves: seq<Move>, read: TxIdReader, i: nat, j: nat)
    requires Chain(stores, moves, read) && i < j < |moves| && NoRestore(moves, i, j)
    requires Advances(stores[i], moves[i]) && Cut(stores[j], moves[j]).Some?
    ensures Cut(stores[i], moves[i]).value.to < Cut(stores[j], moves[j]).value.from
    ensures NoAdvance(stores, moves, i + 1, j) ==>
              Cut(stores[j], moves[j]).value.from == Cut(stores[i], moves[i]).value.to + 1
  {
    MarkerAfter(stores[i], moves[i], read, stores[i + 1]);
    MarkerStays(stores, moves, read, i + 1, j);
    CutsInBounds(stores[j], moves[j]);
    CutsInBounds(stores[i], moves[i]);
  }

  /** Over every sequence of runs, restores and other writes: each run keeps its own bound, and
      between restores the ranges ascend without a gap. */
  lemma PruningRunsAreSafe(stores: seq<Meta>, moves: seq<Move>, read: TxIdReader)
    requires Chain(stores, moves, read)
    ensures forall i :: 0 <= i < |moves| ==> CutInBounds(stores[i], moves[i])
    ensures forall i, j :: 0 <= i < j < |moves| && NoRestore(moves, i, j) &&
                           Advances(stores[i], moves[i]) && Cut(stores[j], moves[j]).Some? ==>
              && Cut(stores[i], moves[i]).value.to < Cut(stores[j], moves[j]).value.from
              && (NoAdvance(stores, moves, i + 1, j) ==>
                    Cut(stores[j], moves[j]).value.from == Cut(stores[i], moves[i]).value.to + 1)
  {
    forall i | 0 <= i < |moves| ensures CutInBounds(stores[i], moves[i]) { CutsInBounds(stores[i], moves[i]); }
    forall i, j | 0 <= i < j < |moves| && NoRestore(moves, i, j) &&
                  Advances(stores[i], moves[i]) && Cut(stores[j], moves[j]).Some?
      ensures Cut(stores[i], moves[i]).value.to < Cut(stores[j], moves[j]).value.from
      ensures NoAdvance(stores, moves, i + 1, j) ==>
                Cut(stores[j], moves[j]).value.from == Cut(stores[i], moves[i]).value.to + 1
    {
      RangesAscend(stores, moves, read, i, j);
    }
  }

  /** After a restore pruning starts over right after the snapshot's marker. */
  lemma RestoreRewindsRanges(stores: seq<Meta>, moves: seq<Move>, read: TxIdReader, i: nat, j: nat)
    requires Chain(stores, moves, read) && i < j < |moves| && moves[i].Restoring?
    requires NoRestore(moves, i + 1, j) && NoAdvance(stores, moves, i + 1, j) && Cut(stores[j], moves[j]).Some?
    ensures Cut(stores[j], moves[j]).value.from == StartAfter(GetU64(moves[i].snap, PrunedUpTo))
  {
    MarkerAfter(stores[i], moves[i], read, stores[i + 1]);
    MarkerStays(stores, moves, read, i + 1, j);
    CutsInBounds(stores[j], moves[j]);
  }

  /** And each run takes exactly what belongs to the range it cut out of its store. */
  lemma RunErasesItsRange(m: Meta, read: TxIdReader, keep: U64, run: Run, k: Key)
    requires k != PrunedUpTo
    ensures match Cut(m, Prune(keep, run))
            case None => Get(AfterRun(m, read, keep, run), k) == Get(m, k)
            case Some(c) => KeyPruned(m, read, AfterRun(m, read, keep, run), c.from, c.to, k)
  {
    var cut := Cut(m, Prune(keep, run));
    if cut.Some? { CutErases(m, read, cut.value, run.marked, k); }
  }

  // ---------- when pruning does not break recovery ----------

  function Marker(m: Meta): U64 { match GetU64(m, PrunedUpTo) case None => 0 case Some(c) => c }

  /** The newest checkpoint, with complete history from it to the target. */
  ghost predicate Complete(m: Meta, cp: Record, target: U64) {
    && cp.cycle > 0 && GetU64(m, CheckpointLatest) == Some(cp.cycle) && Load(m, cp.cycle) == Some(cp)
    && cp.cycle < target <= SatAdd(HeadOf(m), 1)
    && HistoryPresent(m, cp.cycle, target)
  }

  /** Nothing between the checkpoint and the target is left for pruning to cut. */
  ghost predicate OutOfReach(m: Meta, keep: U64, cp: Record, target: U64) {
    keep == 0 || Max(cp.cycle, Marker(m)) >= Min(Limit(HeadOf(m), keep), target - 1)
  }

  lemma CompleteReconciles(m: Meta, cp: Record, target: U64)
    requires Complete(m, cp, target)
    ensures Reconciled(m, target, Marker(m)) == Some(cp)
  {
    assert Found(m, target - 1) == Some(cp);
  }

  /** A run keeps every key that belongs to no cycle and no transaction, its own marker aside. */
  lemma RunKeepsKey(m: Meta, read: TxIdReader, keep: U64, run: Run, k: Key)
    requires k in {CheckpointLatest, AppliedCycle} || k.CheckpointAt?
    ensures Get(AfterRun(m, read, keep, run), k) == Get(m, k)
  {
    RunErasesItsRange(m, read, keep, run, k);
  }

  /** A run that finds nothing in reach leaves the history to the target as it is. */
  lemma RunKeepsHistory(m: Meta, read: TxIdReader, keep: U64, run: Run, cp: Record, target: U64, n: U64)
    requires cp.cycle < n < target && cp.cycle > 0 && OutOfReach(m, keep, cp, target)
    ensures Get(AfterRun(m, read, keep, run), History(LsuBytes, n)) == Get(m, History(LsuBytes, n))
  {
    RunErasesItsRange(m, read, keep, run, History(LsuBytes, n));
    RangeWithin(HeadOf(m), GetU64(m, PrunedUpTo), keep, run.batch);
  }

  lemma RangeWithin(head: U64, marker: Option<U64>, keep: U64, batch: U64)
    ensures var r := Range(head, marker, keep, batch);
            r.Some? ==> r.value.to <= Limit(head, keep) && (marker.Some? ==> r.value.from == marker.value + 1)
  {}

  lemma RunKeepsReach(m: Meta, read: TxIdReader, keep: U64, run: Run, cp: Record, target: U64)
    requires cp.cycle < target && OutOfReach(m, keep, cp, target)
    ensures var t := AfterRun(m, read, keep, run); HeadOf(t) == HeadOf(m) && OutOfReach(t, keep, cp, target)
  {
    var t := AfterRun(m, read, keep, run);
    RunKeepsKey(m, read, keep, run, AppliedCycle);
    MarkerAfter(m, Prune(keep, run), read, t);
    CutsInBounds(m, Prune(keep, run));
  }

  /** The history after the checkpoint is as it was. */
  ghost predicate SameHistory(m: Meta, t: Meta, cp: Record, target: U64) {
    forall n: U64 :: cp.cycle < n < target ==> Get(t, History(LsuBytes, n)) == Get(m, History(LsuBytes, n))
  }

  lemma RunKeepsComplete(m: Meta, read: TxIdReader, keep: U64, run: Run, cp: Record, target: U64)
    requires Complete(m, cp, target) && OutOfReach(m, keep, cp, target)
    ensures var t := AfterRun(m, read, keep, run); Complete(t, cp, target) && SameHistory(m, t, cp, target)
  {
    var t := AfterRun(m, read, keep, run);
    RunKeepsKey(m, read, keep, run, CheckpointLatest);
    RunKeepsKey(m, read, keep, run, CheckpointAt(cp.cycle));
    RunKeepsKey(m, read, keep, run, AppliedCycle);
    forall n: U64 | cp.cycle < n < target
      ensures Get(t, History(LsuBytes, n)) == Get(m, History(LsuBytes, n)) && History(LsuBytes, n) in t
    {
      RunKeepsHistory(m, read, keep, run, cp, target, n);
      assert Get(m, History(LsuBytes, n)).Some?;
    }
  }

  ghost function AfterRuns(m: Meta, read: TxIdReader, keep: U64, runs: seq<Run>): Meta {
    if runs == [] then m else AfterRun(AfterRuns(m, read, keep, runs[..|runs| - 1]), read, keep, runs[|runs| - 1])
  }

  /** However often pruning runs, reconcile still finds the checkpoint. */
  lemma {:induction false} RunsKeepRecoverable(m: Meta, read: TxIdReader, keep: U64, runs: seq<Run>, cp: Record,
                                               target: U64)
    requires Complete(m, cp, target) && OutOfReach(m, keep, cp, target)
    ensures var t := AfterRuns(m, read, keep, runs);
            && Complete(t, cp, target) && OutOfReach(t, keep, cp, target) && HeadOf(t) == HeadOf(m)
            && Reconciled(t, target, Marker(t)) == Some(cp) && SameHistory(m, t, cp, target)
    decreases |runs|
  {
    if runs != [] {
      var before, last := AfterRuns(m, read, keep, runs[..|runs| - 1]), runs[|runs| - 1];
      RunsKeepRecoverable(m, read, keep, runs[..|runs| - 1], cp, target);
      RunKeepsComplete(before, read, keep, last, cp, target);
      RunKeepsReach(before, read, keep, last, cp, target);
    }
    CompleteReconciles(AfterRuns(m, read, keep, runs), cp, target);
  }

  /** Prune any number of times, reconcile, restore: the replay finds every update unchanged. */
  lemma PrunedNodeCanReplay(m: Meta, read: TxIdReader, keep: U64, runs: seq<Run>, cp: Record, target: U64, snap: Meta,
                            after: Meta)
    requires Complete(m, cp, target) && OutOfReach(m, keep, cp, target)
    requires RestoredTo(AfterRuns(m, read, keep, runs), snap, cp, HeadOf(m), after)
    ensures GetU64(after, AppliedCycle) == Some(cp.cycle)
    ensures Replayable(m, after, cp.cycle, target)
  {
    var t := AfterRuns(m, read, keep, runs);
    RunsKeepRecoverable(m, read, keep, runs, cp, target);
    ReplayExactly(t, snap, after, cp, target, Marker(t), HeadOf(m));
  }

  /** Whenever reconcile offers the checkpoint after pruning, a restore from it can be replayed. */
  ghost predicate AlwaysReplayable(m: Meta, read: TxIdReader, keep: U64, cp: Record, target: U64) {
    forall runs, snap, after ::
      Reconciled(AfterRuns(m, read, keep, runs), target, Marker(AfterRuns(m, read, keep, runs))) == Some(cp) &&
      RestoredTo(AfterRuns(m, read, keep, runs), snap, cp, HeadOf(m), after) ==>
        Replayable(m, after, cp.cycle, target)
  }

  /** One run without a bound on its batch, when something is in reach: reconcile still offers the
      checkpoint, and the replay meets a gap. */
  lemma RunHidesGap(m: Meta, read: TxIdReader, keep: U64, cp: Record, target: U64) returns (n: U64)
    requires Complete(m, cp, target) && !OutOfReach(m, keep, cp, target)
    ensures var t := AfterRun(m, read, keep, Run(MAX_U64, true));
            && Reconciled(t, target, Marker(t)) == Some(cp)
            && cp.cycle < n < target && Get(t, History(LsuBytes, n)) == None
  {
    var run := Run(MAX_U64, true);
    var t, limit := AfterRun(m, read, keep, run), Limit(HeadOf(m), keep);
    n := Max(cp.cycle, Marker(m)) + 1;
    var cut := Cut(m, Prune(keep, run)).value;
    RunErasesItsRange(m, read, keep, run, History(LsuBytes, n));
    MarkerAfter(m, Prune(keep, run), read, t);
    RunKeepsKey(m, read, keep, run, CheckpointLatest);
    RunKeepsKey(m, read, keep, run, CheckpointAt(cp.cycle));
    assert cut.to == limit;
    forall i: U64 | Max(cp.cycle, limit) < i < target ensures History(LsuBytes, i) in t {
      RunErasesItsRange(m, read, keep, run, History(LsuBytes, i));
      assert Get(m, History(LsuBytes, i)).Some?;
    }
    assert Found(t, target - 1) == Some(cp);
  }

  /** From complete history, a replay after any number of runs is complete if and only if nothing
      between the checkpoint and the target is left in pruning's reach. */
  lemma ReplayAfterPruningExactly(m: Meta, read: TxIdReader, keep: U64, cp: Record, target: U64)
    requires Complete(m, cp, target)
    ensures AlwaysReplayable(m, read, keep, cp, target) <==> OutOfReach(m, keep, cp, target)
  {
    if OutOfReach(m, keep, cp, target) {
      forall runs, snap, after | RestoredTo(AfterRuns(m, read, keep, runs), snap, cp, HeadOf(m), after)
        ensures Replayable(m, after, cp.cycle, target)
      {
        PrunedNodeCanReplay(m, read, keep, runs, cp, target, snap, after);
      }
    } else {
      var n := RunHidesGap(m, read, keep, cp, target);
      var run := Run(MAX_U64, true);
      assert [run][..0] == [] && AfterRuns(m, read, keep, []) == m;
      var t := AfterRuns(m, read, keep, [run]);
      var after := RestoredFromNothing(t, cp, HeadOf(m));
      assert Get(after, History(LsuBytes, n)) == RestoredValue(t, map[], cp, HeadOf(m), History(LsuBytes, n));
      assert !Replayable(m, after, cp.cycle, target);
    }
  }

  /** Restoring from an empty snapshot. */
  lemma RestoredFromNothing(t: Meta, cp: Record, head: U64) returns (after: Meta)
    ensures RestoredTo(t, map[], cp, head, after)
  {
    var kept := map k | k in t && k.History? && RestoredValue(t, map[], cp, head, k).Some? :: t[k];
    after := WithHeads(kept, cp);
  }
}
