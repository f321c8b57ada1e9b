/** Restoring a checkpoint while carrying the history needed for the replay that follows. */
module Recovery {
  import opened Binary
  import opened Store
  import opened Checkpoint

  // ---------- restore ----------

  /** A cycle is carried across when its update or its state root is stored. */
  predicate Carried(m: Meta, n: U64) {
    History(LsuBytes, n) in m || History(LsuStateRoot, n) in m
  }

  /** What each key holds after a restore: the heads name the checkpoint, carried cycles up to
      the old head keep their values, everything else is as in the snapshot. */
  function RestoredValue(before: Meta, snap: Meta, r: Record, head: U64, k: Key): Option<Octets> {
    match k
    case AppliedCycle => Some(U64Bytes(r.cycle))
    case AppliedRoot => Some(r.stateRoot)
    case AppliedHash => Some(r.lsuHash)
    case History(_, n) =>
      if SatAdd(r.cycle, 1) <= n < SatAdd(head, 1) && Carried(before, n) && k in before then Some(before[k])
      else Get(snap, k)
    case _ => Get(snap, k)
  }

  ghost predicate RestoredTo(before: Meta, snap: Meta, r: Record, head: U64, after: Meta) {
    forall k :: Get(after, k) == RestoredValue(before, snap, r, head, k)
  }

  datatype Saved = Saved(cycle: U64, lsu: Option<Octets>, hash: Option<Octets>, root: Option<Octets>,
                         cid: Option<Octets>)

  function Value(s: Saved, f: Field): Option<Octets> {
    match f case LsuBytes => s.lsu case LsuHash => s.hash case LsuStateRoot => s.root case LsuCid => s.cid
  }

  /** The saved list holds each carried cycle of the range with its values. */
  ghost predicate Saves(m: Meta, saved: seq<Saved>, lo: U64, hi: U64) {
    && (forall i :: 0 <= i < |saved| ==> lo <= saved[i].cycle < hi && Carried(m, saved[i].cycle))
    && (forall i, f :: 0 <= i < |saved| ==> Value(saved[i], f) == Get(m, History(f, saved[i].cycle)))
    && (forall n: U64 :: lo <= n < hi && Carried(m, n) ==> exists i :: 0 <= i < |saved| && saved[i].cycle == n)
  }

  method SaveHistory(m: Meta, lo: U64, hi: U64) returns (saved: seq<Saved>)
    ensures Saves(m, saved, lo, hi)
  {
    saved := [];
    if lo < hi {
      for n := lo to hi
        invariant Saves(m, saved, lo, n)
      {
        var one := Saved(n, Get(m, History(LsuBytes, n)), Get(m, History(LsuHash, n)),
                         Get(m, History(LsuStateRoot, n)), Get(m, History(LsuCid, n)));
        ghost var before := saved;
        if one.lsu.Some? || one.root.Some? {
          saved := saved + [one];
          assert saved[|before|] == one;
          assert forall i :: 0 <= i < |before| ==> saved[i] == before[i];
        }
      }
    }
  }

  function PutOne(m: Meta, k: Key, v: Option<Octets>): Meta {
    if v.Some? then m[k := v.value] else m
  }

  function PutBack(m: Meta, s: Saved): Meta {
    PutOne(PutOne(PutOne(PutOne(m, History(LsuBytes, s.cycle), s.lsu), History(LsuHash, s.cycle), s.hash),
                  History(LsuStateRoot, s.cycle), s.root), History(LsuCid, s.cycle), s.cid)
  }

  lemma PutBackGets(m: Meta, s: Saved, k: Key)
    ensures Get(PutBack(m, s), k) ==
              if k.History? && k.cycle == s.cycle && Value(s, k.field).Some? then Value(s, k.field) else Get(m, k)
  {}

  ghost predicate Covers(saved: seq<Saved>, j: nat, k: Key)
    requires j <= |saved|
  {
    k.History? && exists i :: 0 <= i < j && saved[i].cycle == k.cycle && Value(saved[i], k.field).Some?
  }

  /** `after` is `base` with the first `j` saved cycles written over it. */
  ghost predicate Rewritten(base: Meta, saved: seq<Saved>, j: nat, after: Meta)
    requires j <= |saved|
  {
    && (forall k: Key :: Covers(saved, j, k) || Get(after, k) == Get(base, k))
    && (forall i, f :: 0 <= i < j && Value(saved[i], f).Some? ==>
          Get(after, History(f, saved[i].cycle)) == Value(saved[i], f))
  }

  ghost predicate Consistent(saved: seq<Saved>) {
    forall i, j, f :: 0 <= i < |saved| && 0 <= j < |saved| && saved[i].cycle == saved[j].cycle ==>
      Value(saved[i], f) == Value(saved[j], f)
  }

  lemma RewriteStep(base: Meta, saved: seq<Saved>, j: nat, now: Meta)
    requires j < |saved| && Consistent(saved) && Rewritten(base, saved, j, now)
    ensures Rewritten(base, saved, j + 1, PutBack(now, saved[j]))
  {
    var next := PutBack(now, saved[j]);
    forall k: Key ensures Covers(saved, j + 1, k) || Get(next, k) == Get(base, k)
    {
      PutBackGets(now, saved[j], k);
    }
    forall i, f | 0 <= i < j + 1 && Value(saved[i], f).Some?
      ensures Get(next, History(f, saved[i].cycle)) == Value(saved[i], f)
    {
      PutBackGets(now, saved[j], History(f, saved[i].cycle));
    }
  }

  function WithHeads(m: Meta, r: Record): Meta {
    m[AppliedCycle := U64Bytes(r.cycle)][AppliedRoot := r.stateRoot][AppliedHash := r.lsuHash]
  }

  lemma RewrittenIsRestored(before: Meta, snap: Meta, r: Record, head: U64, saved: seq<Saved>, after: Meta)
    requires Saves(before, saved, SatAdd(r.cycle, 1), SatAdd(head, 1))
    requires Rewritten(WithHeads(snap, r), saved, |saved|, after)
    ensures RestoredTo(before, snap, r, head, after)
  {
    forall k ensures Get(after, k) == RestoredValue(before, snap, r, head, k) {
      RewrittenValue(before, snap, r, head, saved, after, k);
    }
  }

  lemma RewrittenValue(before: Meta, snap: Meta, r: Record, head: U64, saved: seq<Saved>, after: Meta, k: Key)
    requires Saves(before, saved, SatAdd(r.cycle, 1), SatAdd(head, 1))
    requires Rewritten(WithHeads(snap, r), saved, |saved|, after)
    ensures Get(after, k) == RestoredValue(before, snap, r, head, k)
  {
    if k.History? && SatAdd(r.cycle, 1) <= k.cycle < SatAdd(head, 1) && Carried(before, k.cycle) {
      var i :| 0 <= i < |saved| && saved[i].cycle == k.cycle;
      assert Value(saved[i], k.field) == Get(before, k);
    }
  }

  method Restore(store: Storage, r: Record, head: U64) returns (ok: bool)
    modifies store
    ensures ok <==> r.name in old(store.snapshots)
    ensures store.snapshots == old(store.snapshots)
    ensures !ok ==> store.db == old(store.db) && store.rootCache == old(store.rootCache)
    ensures ok ==>
              && store.rootCache == r.stateRoot
              && store.db.accounts == old(store.snapshots)[r.name].accounts
              && RestoredTo(old(store.db).meta, old(store.snapshots)[r.name].meta, r, head, store.db.meta)
  {
    ghost var before := store.db.meta;
    var saved := SaveHistory(store.db.meta, SatAdd(r.cycle, 1), SatAdd(head, 1));
    ok := store.LoadSnapshot(r.name);
    if !ok { return; }
    ghost var snap := store.db;
    store.rootCache := r.stateRoot;
    store.SetMetadata(AppliedCycle, U64Bytes(r.cycle));
    store.SetMetadata(AppliedRoot, r.stateRoot);
    store.SetMetadata(AppliedHash, r.lsuHash);
    ghost var base := store.db.meta;
    for j := 0 to |saved|
      invariant store.snapshots == old(store.snapshots) && store.rootCache == r.stateRoot
      invariant store.db.accounts == snap.accounts
      invariant Rewritten(base, saved, j, store.db.meta)
    {
      RewriteStep(base, saved, j, store.db.meta);
      RewriteOne(store, saved[j]);
    }
    RewrittenIsRestored(before, snap.meta, r, head, saved, store.db.meta);
  }

  method RewriteOne(store: Storage, s: Saved)
    modifies store
    ensures store.db == old(store.db).(meta := PutBack(old(store.db).meta, s))
    ensures store.snapshots == old(store.snapshots) && store.rootCache == old(store.rootCache)
  {
    if s.lsu.Some? { store.SetMetadata(History(LsuBytes, s.cycle), s.lsu.value); }
    if s.hash.Some? { store.SetMetadata(History(LsuHash, s.cycle), s.hash.value); }
    if s.root.Some? { store.SetMetadata(History(LsuStateRoot, s.cycle), s.root.value); }
    if s.cid.Some? { store.SetMetadata(History(LsuCid, s.cycle), s.cid.value); }
  }

  // ---------- reconcile ----------

  ghost predicate HistoryPresent(m: Meta, above: U64, below: U64) {
    forall n: U64 :: above < n < below ==> History(LsuBytes, n) in m
  }

  /** A checkpoint below the target with an unbroken history after it, or after the pruned
      boundary if that is later. */
  ghost function Reconciled(m: Meta, target: U64, prunedUpTo: U64): Option<Record> {
    if target <= 1 then None
    else match Found(m, SatSub(target, 1))
      case None => None
      case Some(cp) => if cp.cycle != 0 && HistoryPresent(m, Max(cp.cycle, prunedUpTo), target) then Some(cp) else None
  }

  method ReconcileForMissingPrefix(m: Meta, target: U64, prunedUpTo: U64) returns (r: Option<Record>)
    ensures r == Reconciled(m, target, prunedUpTo)
  {
    if target <= 1 { return None; }
    var cp := FindLatestAtOrBelow(m, SatSub(target, 1));
    if cp.None? { return None; }
    if cp.value.cycle == 0 { return None; }
    var from := Max(cp.value.cycle, prunedUpTo);
    var i := SatAdd(from, 1);
    while i < target
      invariant SatAdd(from, 1) <= i
      invariant forall n: U64 :: from < n < i && n < target ==> History(LsuBytes, n) in m
    {
      if History(LsuBytes, i) !in m { return None; }
      i := i + 1;
    }
    r := cp;
  }

  // ---------- restore, then replay ----------

  /** Every cycle the replay will visit holds the update it held before the restore. */
  ghost predicate Replayable(before: Meta, after: Meta, above: U64, below: U64) {
    forall n: U64 :: above < n < below ==>
      Get(after, History(LsuBytes, n)).Some? && Get(after, History(LsuBytes, n)) == Get(before, History(LsuBytes, n))
  }

  /** The replay after a reconciled restore up to the old head is possible exactly when no
      cycle between the checkpoint and the pruned boundary is missing. */
  lemma ReplayExactly(before: Meta, snap: Meta, after: Meta, cp: Record, target: U64, prunedUpTo: U64, head: U64)
    requires Reconciled(before, target, prunedUpTo) == Some(cp)
    requires target <= SatAdd(head, 1)
    requires RestoredTo(before, snap, cp, head, after)
    ensures GetU64(after, AppliedCycle) == Some(cp.cycle)
    ensures Get(after, AppliedRoot) == Some(cp.stateRoot) && Get(after, AppliedHash) == Some(cp.lsuHash)
    ensures Replayable(before, after, cp.cycle, target) <==>
              HistoryPresent(before, cp.cycle, Min(SatAdd(prunedUpTo, 1), target))
  {
    U64RoundTrip(cp.cycle);
    assert Get(after, AppliedCycle) == RestoredValue(before, snap, cp, head, AppliedCycle);
    assert Get(after, AppliedRoot) == RestoredValue(before, snap, cp, head, AppliedRoot);
    assert Get(after, AppliedHash) == RestoredValue(before, snap, cp, head, AppliedHash);
    CarriedAcross(before, snap, after, cp, target, head);
    if HistoryPresent(before, cp.cycle, Min(SatAdd(prunedUpTo, 1), target)) {
      forall n: U64 | cp.cycle < n < target ensures History(LsuBytes, n) in before {
        if n > prunedUpTo { assert Max(cp.cycle, prunedUpTo) < n < target; }
      }
    }
  }

  lemma CarriedAcross(before: Meta, snap: Meta, after: Meta, cp: Record, target: U64, head: U64)
    requires target <= SatAdd(head, 1) && RestoredTo(before, snap, cp, head, after)
    ensures forall n: U64 :: cp.cycle < n < target && History(LsuBytes, n) in before ==>
              Get(after, History(LsuBytes, n)) == Get(before, History(LsuBytes, n))
  {
    forall n: U64 | cp.cycle < n < target && History(LsuBytes, n) in before
      ensures Get(after, History(LsuBytes, n)) == Get(before, History(LsuBytes, n))
    {
      assert Get(after, History(LsuBytes, n)) == RestoredValue(before, snap, cp, head, History(LsuBytes, n));
    }
  }

  /** The condition can fail: pruning past the checkpoint hides a gap from the reconcile scan. */
  lemma GapBelowPrunedBoundary() returns (before: Meta, cp: Record)
    ensures Reconciled(before, 8, 6) == Some(cp) && cp.cycle == 5
    ensures !HistoryPresent(before, cp.cycle, 7)
  {
    cp := Record(5, ZERO_HASH, ZERO_HASH, SnapshotName(5));
    var m: Meta := map[History(LsuBytes, 7) := []];
    before := Recorded(m, cp);
    NamesAreReadable(5);
    RecordedLoads(m, cp);
    assert History(LsuBytes, 6) !in before;
    assert HistoryPresent(before, 6, 8);
  }

  /** In particular whenever pruning has not passed the checkpoint. */
  lemma RestoreThenReplay(before: Meta, snap: Meta, after: Meta, cp: Record, target: U64, prunedUpTo: U64, head: U64)
    requires Reconciled(before, target, prunedUpTo) == Some(cp) && prunedUpTo <= cp.cycle
    requires target <= SatAdd(head, 1)
    requires RestoredTo(before, snap, cp, head, after)
    ensures GetU64(after, AppliedCycle) == Some(cp.cycle)
    ensures Replayable(before, after, cp.cycle, target)
  {
    ReplayExactly(before, snap, after, cp, target, prunedUpTo, head);
  }

  /** A restore carries every value of a cycle past the checkpoint up to the old head whose update or
      state root is stored, makes the checkpoint the head, and takes all other metadata back. */
  lemma RestoreKeepsHistory(before: Meta, snap: Meta, after: Meta, cp: Record, head: U64, n: U64, f: Field)
    requires RestoredTo(before, snap, cp, head, after)
    requires n < MAX_U64
    ensures var stored := History(LsuBytes, n) in before || History(LsuStateRoot, n) in before;
            Get(after, History(f, n)) ==
              if cp.cycle < n <= head && stored && History(f, n) in before then Get(before, History(f, n))
              else Get(snap, History(f, n))
  {
    assert Get(after, History(f, n)) == RestoredValue(before, snap, cp, head, History(f, n));
  }

  lemma RestoreRevertsRest(before: Meta, snap: Meta, after: Meta, cp: Record, head: U64, k: Key)
    requires RestoredTo(before, snap, cp, head, after)
    requires !k.History? && k !in {AppliedCycle, AppliedRoot, AppliedHash}
    ensures Get(after, k) == Get(snap, k)
  {
    assert Get(after, k) == RestoredValue(before, snap, cp, head, k);
  }

  /** On a tidy store reconcile offers the newest checkpoint below the target if the lookup sees one,
      and only with unbroken history from the later of it and the pruned boundary. */
  lemma ReconciledExactly(m: Meta, target: U64, prunedUpTo: U64, cp: Record)
    requires Tidy(m) && Seen(m, target)
    ensures Reconciled(m, target, prunedUpTo) == Some(cp) <==>
              && target > 1 && cp.cycle < target && Load(m, cp.cycle) == Some(cp)
              && (forall c: U64 :: cp.cycle < c < target ==> Load(m, c).None?)
              && forall n: U64 :: Max(cp.cycle, prunedUpTo) < n < target ==> History(LsuBytes, n) in m
  {
    if target > 1 {
      LookupExactly(m, target - 1);
      NewestIs(m, target - 1, Found(m, target - 1), cp);
    }
  }

  /** The lookup below the target is exact. */
  ghost predicate Seen(m: Meta, target: U64) {
    target > 1 ==> NewestAtOrBelow(m, target - 1, Found(m, target - 1))
  }

  lemma NewestIs(m: Meta, max: U64, r: Option<Record>, cp: Record)
    requires Tidy(m) && NewestAtOrBelow(m, max, r)
    ensures r == Some(cp) <==>
              && cp.cycle <= max && Load(m, cp.cycle) == Some(cp)
              && forall c: U64 :: cp.cycle < c <= max ==> Load(m, c).None?
    ensures r.Some? ==> r.value.cycle > 0
  {
    match r
    case None =>
    case Some(found) =>
      var c: U64 :| c <= max && Load(m, c) == r && forall d: U64 :: c < d <= max ==> Load(m, d).None?;
      assert CheckpointAt(c) in m;
  }

  // ---------- what a restore does to the checkpoints themselves ----------

  /** Two stores hold the same checkpoint entries. */
  ghost predicate SameCheckpoints(m: Meta, t: Meta) {
    && Get(m, CheckpointLatest) == Get(t, CheckpointLatest)
    && forall c: U64 :: Get(m, CheckpointAt(c)) == Get(t, CheckpointAt(c))
  }

  lemma {:induction false} SameScan(m: Meta, t: Meta, lo: U64, c: int)
    requires SameCheckpoints(m, t) && c <= MAX_U64
    ensures Scan(m, lo, c) == Scan(t, lo, c)
    decreases c - lo
  {
    if c >= lo {
      assert Get(m, CheckpointAt(c)) == Get(t, CheckpointAt(c));
      SameScan(m, t, lo, c - 1);
    }
  }

  lemma SameFound(m: Meta, t: Meta, max: U64)
    requires SameCheckpoints(m, t)
    ensures Found(m, max) == Found(t, max)
  {
    SameScan(m, t, ScanFrom(max), max);
    var latest := GetU64(m, CheckpointLatest);
    if latest.Some? { assert Get(m, CheckpointAt(latest.value)) == Get(t, CheckpointAt(latest.value)); }
  }

  /** Every lookup after a restore answers as it would have on the snapshot: no checkpoint
      written later, the restored one included, is known any more. */
  lemma LookupsRevert(before: Meta, snap: Meta, after: Meta, cp: Record, head: U64, max: U64)
    requires RestoredTo(before, snap, cp, head, after)
    ensures SameCheckpoints(after, snap) && Found(after, max) == Found(snap, max)
  {
    assert Get(after, CheckpointLatest) == RestoredValue(before, snap, cp, head, CheckpointLatest);
    forall c: U64 ensures Get(after, CheckpointAt(c)) == Get(snap, CheckpointAt(c)) {
      assert Get(after, CheckpointAt(c)) == RestoredValue(before, snap, cp, head, CheckpointAt(c));
    }
    SameFound(after, snap, max);
  }

  /** What lookups can find on a tidy store is what it records. */
  lemma FoundIsRecorded(m: Meta, max: U64, cp: Record)
    requires Tidy(m)
    ensures Found(m, max) == Some(cp) ==> Load(m, cp.cycle) == Some(cp) && 1 <= cp.cycle <= max
    ensures Load(m, cp.cycle) == Some(cp) ==> Found(m, cp.cycle) == Some(cp)
  {
    ScanFindsNewest(m, ScanFrom(max), max);
    if Load(m, cp.cycle) == Some(cp) { assert CheckpointAt(cp.cycle) in m; }
  }

  ghost predicate EverFound(m: Meta, cp: Record) { exists max: U64 :: Found(m, max) == Some(cp) }

  ghost predicate EverReconciled(m: Meta, cp: Record) {
    exists target: U64, prunedUpTo: U64 :: Reconciled(m, target, prunedUpTo) == Some(cp)
  }

  /** After a restore from the snapshot taken when `cp` was written, a lookup can return `cp` again
      if and only if the store already recorded it before that write; and so can a reconcile,
      short of the last cycle number. */
  lemma RestoreForgetsExactly(written: Meta, before: Meta, after: Meta, cp: Record, head: U64)
    requires Tidy(written) && RestoredTo(before, written, cp, head, after)
    ensures EverFound(after, cp) <==> Load(written, cp.cycle) == Some(cp)
    ensures EverReconciled(after, cp) <==> Load(written, cp.cycle) == Some(cp) && cp.cycle < MAX_U64
  {
    forall max: U64 ensures Found(after, max) == Found(written, max) {
      LookupsRevert(before, written, after, cp, head, max);
    }
    forall max: U64 | Found(written, max) == Some(cp) ensures Load(written, cp.cycle) == Some(cp) && cp.cycle <= max {
      FoundIsRecorded(written, max, cp);
    }
    if Load(written, cp.cycle) == Some(cp) {
      FoundIsRecorded(written, cp.cycle, cp);
      assert CheckpointAt(cp.cycle) in written;
      assert Found(after, cp.cycle) == Some(cp);
      if cp.cycle < MAX_U64 { assert Reconciled(after, cp.cycle + 1, 0) == Some(cp); }
    }
    if EverReconciled(after, cp) {
      var target: U64, prunedUpTo: U64 :| Reconciled(after, target, prunedUpTo) == Some(cp);
      assert Found(after, SatSub(target, 1)) == Some(cp);
    }
  }

  /** So a checkpoint newer than all before it is lost by the very restore that used it, and
      cannot be written again: its snapshot name is taken. */
  method CheckpointThenRestore(store: Storage, cycle: U64, stateRoot: Hash, lsuHash: Hash, head: U64) returns (ok: bool)
    modifies store
    ensures ok <==> SnapshotName(cycle) !in old(store.snapshots)
    ensures ok ==> forall max: U64 :: Found(store.db.meta, max) == Found(old(store.db).meta, max)
    ensures SnapshotName(cycle) in store.snapshots
  {
    ok := WriteCheckpoint(store, cycle, stateRoot, lsuHash);
    if ok {
      ghost var before := store.db.meta;
      var cp := Record(cycle, stateRoot, lsuHash, SnapshotName(cycle));
      var restored := Restore(store, cp, head);
      forall max: U64 ensures Found(store.db.meta, max) == Found(old(store.db).meta, max) {
        LookupsRevert(before, old(store.db).meta, store.db.meta, cp, head, max);
      }
    }
  }

  /** A first checkpoint, found before the restore from it and by no lookup after. */
  lemma FirstCheckpointIsForgotten() returns (before: Meta, after: Meta, cp: Record)
    ensures before == Recorded(map[], cp) && Found(before, cp.cycle) == Some(cp)
    ensures RestoredTo(before, map[], cp, cp.cycle, after)
    ensures !EverFound(after, cp) && !EverReconciled(after, cp)
  {
    cp := Record(5, ZERO_HASH, ZERO_HASH, SnapshotName(5));
    NamesAreReadable(5);
    before, after := OnlyCheckpoint(cp);
  }

  lemma OnlyCheckpoint(cp: Record) returns (before: Meta, after: Meta)
    requires Readable(cp.name) && cp.cycle > 0
    ensures before == Recorded(map[], cp) && Found(before, cp.cycle) == Some(cp)
    ensures RestoredTo(before, map[], cp, cp.cycle, after)
    ensures !EverFound(after, cp) && !EverReconciled(after, cp)
  {
    before := Recorded(map[], cp);
    RecordedLoads(map[], cp);
    after := WithHeads(map[], cp);
    assert RestoredTo(before, map[], cp, cp.cycle, after);
    RestoreForgetsExactly(map[], before, after, cp, cp.cycle);
  }
}
