/** Consensus checkpoints: recording them and finding them again. */
module Checkpoint {
  import opened Binary
  import opened Store
  import Utf8

  datatype Record = Record(cycle: U64, stateRoot: Hash, lsuHash: Hash, name: Octets)

  // ---------- the blob ----------

  function EncodeBlob(r: Record): Octets {
    Cat(U64Bytes(r.cycle), Cat(r.stateRoot, Cat(r.lsuHash, r.name)))
  }

  function Cat(a: Octets, b: Octets): (r: Octets)
    ensures |r| == |a| + |b| && r[..|a|] == a && r[|a|..] == b
  {
    a + b
  }

  function DecodeBlob(b: Octets): Option<Record> {
    if |b| < 72 || !Utf8.WellFormed(b[72..]) || b[72..] == [] then None
    else Some(Record(U64FromBytes(b[..8]).value, b[8..40], b[40..72], b[72..]))
  }

  predicate Readable(name: Octets) { name != [] && Utf8.WellFormed(name) }

  /** Decoding inverts encoding for every readable name, and accepts nothing else. */
  lemma BlobRoundTrip(r: Record, b: Octets)
    ensures DecodeBlob(EncodeBlob(r)) == if Readable(r.name) then Some(r) else None
    ensures DecodeBlob(b) == Some(r) ==> EncodeBlob(r) == b
  {
    var t2 := Cat(r.lsuHash, r.name);
    var t1 := Cat(r.stateRoot, t2);
    var e := EncodeBlob(r);
    assert e[8..] == t1;
    assert e[8..40] == t1[..32] && e[40..] == t1[32..];
    assert e[40..72] == t2[..32] && e[72..] == t2[32..];
    U64RoundTrip(r.cycle);
    if DecodeBlob(b) == Some(r) {
      U64Reread(b[..8]);
      assert b == b[..8] + (b[8..40] + (b[40..72] + b[72..]));
    }
  }

  lemma U64Reread(b: Octets)
    requires |b| == 8
    ensures U64Bytes(U64FromBytes(b).value) == b
  {
    LittleEndianReread(b);
  }

  lemma {:induction false} LittleEndianReread(b: Octets)
    ensures LittleEndian(FromLittleEndian(b), |b|) == b
    decreases |b|
  {
    if b != [] {
      LittleEndianReread(b[1..]);
      var rest := FromLittleEndian(b[1..]);
      assert (b[0] + 256 * rest) % 256 == b[0] && (b[0] + 256 * rest) / 256 == rest;
    }
  }

  // ---------- names ----------

  function Decimal(n: nat): Octets {
    if n < 10 then [48 + n] else Decimal(n / 10) + [48 + n % 10]
  }

  /** "consensus_checkpoint_". */
  const PREFIX: Octets :=
    [99, 111, 110, 115, 101, 110, 115, 117, 115, 95, 99, 104, 101, 99, 107, 112, 111, 105, 110, 116, 95]

  function SnapshotName(cycle: U64): Octets { PREFIX + Decimal(cycle) }

  /** The number a string of digits stands for. */
  function Value(digits: Octets): int {
    if digits == [] then 0
    else var n := |digits| - 1; 10 * Value(digits[..n]) + (digits[n] as int - 48)
  }

  /** A snapshot is named "consensus_checkpoint_" and the cycle in decimal digits without leading zeros. */
  lemma NameReads(cycle: U64)
    ensures var name := SnapshotName(cycle);
            && |name| > 21 && (cycle > 0 ==> name[21] != 48)
            && name[..21] == [99, 111, 110, 115, 101, 110, 115, 117, 115, 95,
                              99, 104, 101, 99, 107, 112, 111, 105, 110, 116, 95]
            && Value(name[21..]) == cycle && forall i :: 21 <= i < |name| ==> 48 <= name[i] <= 57
  {
    DecimalReads(cycle);
    assert SnapshotName(cycle)[21..] == Decimal(cycle);
  }

  lemma {:induction false} DecimalReads(n: nat)
    ensures var d := Decimal(n);
            d != [] && Value(d) == n && (n > 0 ==> d[0] != 48) && forall i :: 0 <= i < |d| ==> 48 <= d[i] <= 57
  {
    if n < 10 {
      assert Decimal(n)[..0] == [];
    } else {
      DecimalReads(n / 10);
      var front := Decimal(n / 10);
      assert (front + [48 + n % 10])[..|front|] == front;
    }
  }

  lemma {:induction false} DecimalInjective(n: nat, m: nat)
    requires Decimal(n) == Decimal(m)
    ensures n == m
  {
    DecimalSize(n);
    DecimalSize(m);
    if n >= 10 && m >= 10 {
      var a, b := Decimal(n / 10), Decimal(m / 10);
      assert (a + [48 + n % 10])[..|a|] == a && (b + [48 + m % 10])[..|b|] == b;
      assert (a + [48 + n % 10])[|a|] == 48 + n % 10 && (b + [48 + m % 10])[|b|] == 48 + m % 10;
      DecimalInjective(n / 10, m / 10);
    }
  }

  lemma DecimalSize(n: nat)
    ensures |Decimal(n)| >= 1 && (n >= 10 <==> |Decimal(n)| >= 2)
  {
    if n >= 10 { DecimalSize(n / 10); }
  }

  lemma {:induction false} DecimalIsAscii(n: nat)
    ensures forall i :: 0 <= i < |Decimal(n)| ==> Decimal(n)[i] <= 0x7F
  {
    if n >= 10 { DecimalIsAscii(n / 10); }
  }

  /** The name a checkpoint is written under can be read back. */
  lemma NamesAreReadable(cycle: U64)
    ensures Readable(SnapshotName(cycle))
  {
    DecimalIsAscii(cycle);
    Utf8.AsciiIsWellFormed(SnapshotName(cycle));
  }

  /** Each cycle has a snapshot of its own. */
  lemma NamesDiffer(c: U64, d: U64)
    requires SnapshotName(c) == SnapshotName(d)
    ensures c == d
  {
    assert SnapshotName(c)[|PREFIX|..] == Decimal(c) && SnapshotName(d)[|PREFIX|..] == Decimal(d);
    DecimalInjective(c, d);
  }

  // ---------- writing ----------

  function Recorded(m: Meta, r: Record): Meta {
    m[CheckpointAt(r.cycle) := EncodeBlob(r)][CheckpointLatest := U64Bytes(r.cycle)]
  }

  /** The snapshot is taken before the record is written, so it does not hold the record. */
  method WriteCheckpoint(store: Storage, cycle: U64, stateRoot: Hash, lsuHash: Hash) returns (ok: bool)
    modifies store
    ensures ok <==> SnapshotName(cycle) !in old(store.snapshots)
    ensures !ok ==> store.db == old(store.db) && store.snapshots == old(store.snapshots)
    ensures ok ==> store.snapshots == old(store.snapshots)[SnapshotName(cycle) := old(store.db)]
    ensures ok ==>
              var r := Record(cycle, stateRoot, lsuHash, SnapshotName(cycle));
              store.db == old(store.db).(meta := Recorded(old(store.db).meta, r))
    ensures store.rootCache == old(store.rootCache)
  {
    var name := SnapshotName(cycle);
    ok := store.CreateSnapshot(name);
    if !ok { return; }
    store.SetMetadata(CheckpointAt(cycle), EncodeBlob(Record(cycle, stateRoot, lsuHash, name)));
    store.SetMetadata(CheckpointLatest, U64Bytes(cycle));
  }

  // ---------- finding ----------

  const MAX_SCAN: U64 := 4096

  function Load(m: Meta, cycle: U64): Option<Record> {
    match Get(m, CheckpointAt(cycle))
    case None => None
    case Some(b) => DecodeBlob(b)
  }

  /** The newest record in `[lo, c]`. */
  function Scan(m: Meta, lo: U64, c: int): Option<Record>
    requires c <= MAX_U64
    decreases c - lo
  {
    if c < lo then None
    else if Load(m, c).Some? then Load(m, c)
    else Scan(m, lo, c - 1)
  }

  lemma {:induction false} ScanFindsNewest(m: Meta, lo: U64, c: int)
    requires c <= MAX_U64
    ensures var r := Scan(m, lo, c);
            && (r.None? ==> forall d: U64 :: lo <= d <= c ==> Load(m, d).None?)
            && (r.Some? ==>
                  exists d: U64 :: lo <= d <= c && Load(m, d) == r && forall e: U64 :: d < e <= c ==> Load(m, e).None?)
    decreases c - lo
  {
    if c >= lo && Load(m, c).None? { ScanFindsNewest(m, lo, c - 1); }
  }

  method ScanDown(m: Meta, lo: U64, max: U64) returns (r: Option<Record>)
    ensures r == Scan(m, lo, max)
  {
    var c: int := max;
    while c >= lo
      invariant c <= max && Scan(m, lo, max) == Scan(m, lo, c)
      decreases c - lo
    {
      var rec := Load(m, c);
      if rec.Some? { return rec; }
      c := c - 1;
    }
    r := None;
  }

  function ScanFrom(max: U64): U64 { Max(SatSub(max, MAX_SCAN), 1) }

  function Found(m: Meta, max: U64): Option<Record> {
    match GetU64(m, CheckpointLatest)
    case None => None
    case Some(latest) => if latest == 0 || latest > max then Scan(m, ScanFrom(max), max) else Load(m, latest)
  }

  method FindLatestAtOrBelow(m: Meta, max: U64) returns (r: Option<Record>)
    ensures r == Found(m, max)
  {
    var latest := GetU64(m, CheckpointLatest);
    if latest.None? { return None; }
    if latest.value == 0 || latest.value > max {
      r := ScanDown(m, ScanFrom(max), max);
      return;
    }
    r := Load(m, latest.value);
  }

  /** The true answer: the newest checkpoint at or below `max`, if there is one. */
  ghost predicate NewestAtOrBelow(m: Meta, max: U64, r: Option<Record>) {
    match r
    case None => forall c: U64 :: c <= max ==> Load(m, c).None?
    case Some(_) => exists c: U64 :: c <= max && Load(m, c) == r && forall d: U64 :: c < d <= max ==> Load(m, d).None?
  }

  /** Records carry their own cycle, and the latest-cycle entry names the newest. */
  ghost predicate Tidy(m: Meta) {
    && (forall c: U64 :: CheckpointAt(c) in m ==> c >= 1 && Load(m, c).Some? && Load(m, c).value.cycle == c)
    && (forall c: U64 :: CheckpointAt(c) in m ==>
          GetU64(m, CheckpointLatest).Some? && c <= GetU64(m, CheckpointLatest).value)
    && (GetU64(m, CheckpointLatest).Some? ==> CheckpointAt(GetU64(m, CheckpointLatest).value) in m)
  }

  lemma RecordedLoads(m: Meta, r: Record)
    requires Readable(r.name)
    ensures Load(Recorded(m, r), r.cycle) == Some(r)
    ensures GetU64(Recorded(m, r), CheckpointLatest) == Some(r.cycle)
    ensures forall c: U64 :: c != r.cycle ==> Load(Recorded(m, r), c) == Load(m, c)
  {
    BlobRoundTrip(r, []);
    U64RoundTrip(r.cycle);
  }

  /** Checkpoints written in order stay tidy. */
  lemma WritingKeepsTidy(m: Meta, r: Record)
    requires Tidy(m) && r.cycle >= 1 && Readable(r.name)
    requires GetU64(m, CheckpointLatest).Some? ==> GetU64(m, CheckpointLatest).value <= r.cycle
    ensures Tidy(Recorded(m, r))
  {
    RecordedLoads(m, r);
    var t := Recorded(m, r);
    forall c: U64 | CheckpointAt(c) in t
      ensures c >= 1 && Load(t, c).Some? && Load(t, c).value.cycle == c && c <= r.cycle
    {
      if c != r.cycle {
        assert CheckpointAt(c) in m;
        assert Load(t, c) == Load(m, c);
      }
    }
  }

  /** Some checkpoint lies at or below `max`. */
  ghost predicate AnyAtOrBelow(m: Meta, max: U64) { exists c: U64 :: c <= max && Load(m, c).Some? }

  ghost predicate AnyInWindow(m: Meta, max: U64) { exists c: U64 :: ScanFrom(max) <= c <= max && Load(m, c).Some? }

  /** Below the newest checkpoint the lookup sees exactly the last 4096 cycles and the bound itself. */
  lemma ScanWindowExactly(m: Meta, max: U64)
    requires var latest := GetU64(m, CheckpointLatest); latest.Some? && (latest.value == 0 || latest.value > max)
    ensures Found(m, max).Some? <==> exists c: U64 :: 1 <= c <= max <= c + 4096 && Load(m, c).Some?
  {
    ScanFindsNewest(m, ScanFrom(max), max);
    if c: U64 :| 1 <= c <= max <= c + 4096 && Load(m, c).Some? { assert ScanFrom(max) <= c; }
  }

  /** On a tidy store the lookup is right exactly when the latest-cycle entry is at or below `max`, or
      the scan window holds a checkpoint whenever there is one at all. */
  lemma LookupExactly(m: Meta, max: U64)
    requires Tidy(m)
    ensures NewestAtOrBelow(m, max, Found(m, max)) <==>
              (GetU64(m, CheckpointLatest).Some? && GetU64(m, CheckpointLatest).value <= max)
              || !AnyAtOrBelow(m, max) || AnyInWindow(m, max)
  {
    match GetU64(m, CheckpointLatest) {
      case None =>
        forall c: U64 ensures Load(m, c).None? { assert CheckpointAt(c) !in m; }
      case Some(latest) =>
        assert CheckpointAt(latest) in m;
        if latest <= max {
          forall d: U64 | latest < d <= max ensures Load(m, d).None? { assert CheckpointAt(d) !in m; }
        } else {
          StaleLookup(m, max);
        }
    }
  }

  lemma StaleLookup(m: Meta, max: U64)
    requires Found(m, max) == Scan(m, ScanFrom(max), max)
    ensures NewestAtOrBelow(m, max, Found(m, max)) <==> !AnyAtOrBelow(m, max) || AnyInWindow(m, max)
  {
    var r := Scan(m, ScanFrom(max), max);
    ScanFindsNewest(m, ScanFrom(max), max);
    if r.Some? {
      var d: U64 :| ScanFrom(max) <= d <= max && Load(m, d) == r && forall e: U64 :: d < e <= max ==> Load(m, e).None?;
      assert AnyInWindow(m, max);
    } else {
      assert !AnyInWindow(m, max);
      assert NewestAtOrBelow(m, max, r) <==> !AnyAtOrBelow(m, max);
    }
  }

  lemma TwoCheckpoints(a: Record, b: Record) returns (m: Meta)
    requires 1 <= a.cycle < b.cycle && Readable(a.name) && Readable(b.name)
    ensures Tidy(m) && GetU64(m, CheckpointLatest) == Some(b.cycle) && Load(m, a.cycle) == Some(a)
    ensures forall c: U64 :: c != a.cycle && c != b.cycle ==> Load(m, c) == None
  {
    var empty: Meta := map[];
    var one := Recorded(empty, a);
    m := Recorded(one, b);
    RecordedLoads(empty, a);
    RecordedLoads(one, b);
    WritingKeepsTidy(empty, a);
    WritingKeepsTidy(one, b);
  }

  /** The lookup can miss: with checkpoints at cycles 1 and 10000 none is found for 9000. */
  lemma LookupMissesOldCheckpoint() returns (m: Meta)
    ensures Tidy(m) && Load(m, 1).Some? && Found(m, 9000) == None
    ensures !NewestAtOrBelow(m, 9000, Found(m, 9000))
  {
    NamesAreReadable(1);
    NamesAreReadable(10_000);
    var first, second := SnapshotName(1), SnapshotName(10_000);
    m := TwoCheckpoints(Record(1, ZERO_HASH, ZERO_HASH, first), Record(10_000, ZERO_HASH, ZERO_HASH, second));
    EmptyWindow(m, 9000);
  }

  /** A stale latest-cycle entry and nothing in the window: nothing is found. */
  lemma EmptyWindow(m: Meta, max: U64)
    requires GetU64(m, CheckpointLatest).Some? && GetU64(m, CheckpointLatest).value > max
    requires forall c: U64 :: ScanFrom(max) <= c <= max ==> Load(m, c) == None
    ensures Found(m, max) == None
  {
    ScanFindsNewest(m, ScanFrom(max), max);
  }
}
