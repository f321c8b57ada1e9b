/** Choosing the producers of a cycle: the workers whose ids are nearest to a random draw. */
module Selection {
  import opened Binary
  import opened Sorting

  // ---------- exclusive or ----------

  function XorBits(a: nat, b: nat, width: nat): (r: nat)
    ensures r < Pow2(width)
    decreases width
  {
    if width == 0 then 0 else (a % 2 + b % 2) % 2 + 2 * XorBits(a / 2, b / 2, width - 1)
  }

  function Pow2(n: nat): nat { if n == 0 then 1 else 2 * Pow2(n - 1) }

  lemma {:induction false} XorTwice(a: nat, b: nat, width: nat)
    requires a < Pow2(width)
    ensures XorBits(XorBits(a, b, width), b, width) == a
    decreases width
  {
    if width > 0 {
      var lo, hi := (a % 2 + b % 2) % 2, XorBits(a / 2, b / 2, width - 1);
      Halves(lo, hi);
      BitTwice(a % 2, b % 2);
      XorTwice(a / 2, b / 2, width - 1);
      assert XorBits(lo + 2 * hi, b, width) == (lo + b % 2) % 2 + 2 * XorBits(hi, b / 2, width - 1);
    }
  }

  lemma Halves(lo: nat, hi: nat)
    requires lo < 2
    ensures (lo + 2 * hi) % 2 == lo && (lo + 2 * hi) / 2 == hi
  {}

  lemma BitTwice(p: nat, q: nat)
    requires p < 2 && q < 2
    ensures ((p + q) % 2 + q) % 2 == p
  {}

  function XorByte(a: Byte, b: Byte): Byte {
    assert Pow2(8) == 256 by { assert Pow2(4) == 16; }
    XorBits(a, b, 8)
  }

  lemma XorByteTwice(a: Byte, b: Byte)
    ensures XorByte(XorByte(a, b), b) == a
  {
    assert Pow2(8) == 256 by { assert Pow2(4) == 16; }
    XorTwice(a, b, 8);
  }

  function Xor(a: Hash, b: Hash): (r: Hash)
    ensures forall i :: 0 <= i < 32 ==> r[i] == XorByte(a[i], b[i])
  {
    seq<Byte>(32, i requires 0 <= i < 32 => XorByte(a[i], b[i]))
  }

  method Xor32(a: Hash, b: Hash) returns (r: Hash)
    ensures r == Xor(a, b)
  {
    var out := new Byte[32](_ => 0);
    for i := 0 to 32
      invariant forall j :: 0 <= j < i ==> out[j] == XorByte(a[j], b[j])
    {
      out[i] := XorByte(a[i], b[i]);
    }
    r := out[..];
  }

  /** Different workers never score the same. */
  lemma XorInjective(a: Hash, b: Hash, r: Hash)
    requires Xor(a, r) == Xor(b, r)
    ensures a == b
  {
    forall i | 0 <= i < 32 ensures a[i] == b[i] {
      assert Xor(a, r)[i] == Xor(b, r)[i];
      XorByteTwice(a[i], r[i]);
      XorByteTwice(b[i], r[i]);
    }
  }

  /** Bit `i` of a number. */
  function Bit(n: nat, i: nat): nat { if i == 0 then n % 2 else Bit(n / 2, i - 1) }

  /** Each bit of the result is set exactly if the two bits differ. */
  lemma {:induction false} XorBitwise(a: nat, b: nat, width: nat, i: nat)
    requires i < width
    ensures Bit(XorBits(a, b, width), i) == if Bit(a, i) == Bit(b, i) then 0 else 1
    decreases i
  {
    var lo, hi := (a % 2 + b % 2) % 2, XorBits(a / 2, b / 2, width - 1);
    Halves(lo, hi);
    if i > 0 { XorBitwise(a / 2, b / 2, width - 1, i - 1); }
  }

  /** The distance to the draw is the bitwise difference, byte by byte. */
  lemma DistanceIsXor(worker: Hash, draw: Hash, i: nat, bit: nat)
    requires i < 32 && bit < 8
    ensures Bit(Xor(worker, draw)[i], bit) == if Bit(worker[i], bit) == Bit(draw[i], bit) then 0 else 1
  {
    XorBitwise(worker[i], draw[i], 8, bit);
  }

  // ---------- selection ----------

  function Nearer(r: Hash): (Hash, Hash) -> bool {
    (a: Hash, b: Hash) => Leq(Xor(a, r), Xor(b, r))
  }

  lemma NearerTotal(r: Hash)
    ensures TotalPreorder(Nearer(r))
  {
    var le := Nearer(r);
    forall a, b ensures le(a, b) || le(b, a) { LeqTotal(Xor(a, r), Xor(b, r)); }
    forall a, b, c | le(a, b) && le(b, c) ensures le(a, c) { LeqTransitive(Xor(a, r), Xor(b, r), Xor(c, r)); }
  }

  lemma NearerTieFree(pool: seq<Hash>, r: Hash)
    ensures TieFree(pool, Nearer(r))
  {
    var le := Nearer(r);
    forall i, j | 0 <= i < |pool| && 0 <= j < |pool| && le(pool[i], pool[j]) && le(pool[j], pool[i])
      ensures pool[i] == pool[j]
    {
      LeqAntisymmetric(Xor(pool[i], r), Xor(pool[j], r));
      XorInjective(pool[i], pool[j], r);
    }
  }

  /** `r` is the draw for the cycle. */
  function SelectProducers(pool: seq<Hash>, r: Hash, count: nat): seq<Hash> {
    SortBy(pool, Nearer(r))[..Min(count, |SortBy(pool, Nearer(r))|)]
  }

  /** The order in which workers are listed does not matter. */
  lemma SelectionIgnoresOrder(a: seq<Hash>, b: seq<Hash>, r: Hash, count: nat)
    requires multiset(a) == multiset(b)
    ensures SelectProducers(a, r, count) == SelectProducers(b, r, count)
  {
    NearerTotal(r);
    NearerTieFree(a, r);
    SortOfPermutations(a, b, Nearer(r));
  }

  /** From a duplicate-free pool exactly min(count, pool) different workers are chosen, and
      each chosen one scores strictly below each of the others. */
  lemma SelectionIsNearest(pool: seq<Hash>, r: Hash, count: nat)
    requires Distinct(pool)
    ensures var chosen := SelectProducers(pool, r, count);
            && |Elements(chosen)| == |chosen| == Min(count, |pool|)
            && Elements(chosen) <= Elements(pool)
            && forall x, y :: x in chosen && y in pool && y !in chosen ==> Less(Xor(x, r), Xor(y, r))
  {
    var sorted := SortBy(pool, Nearer(r));
    var chosen := SelectProducers(pool, r, count);
    NearerTotal(r);
    SortBySorted(pool, Nearer(r));
    SameElements(pool, sorted);
    SortedDistinct(pool, sorted);
    DistinctCardinality(chosen);
    forall x | x in Elements(chosen) ensures x in Elements(pool) { assert x in sorted; }
    forall x, y | x in chosen && y in pool && y !in chosen ensures Less(Xor(x, r), Xor(y, r)) {
      assert y in sorted;
      ChosenIsNearer(sorted, |chosen|, r, x, y);
    }
  }

  lemma ChosenIsNearer(sorted: seq<Hash>, n: nat, r: Hash, x: Hash, y: Hash)
    requires SortedBy(sorted, Nearer(r)) && n <= |sorted|
    requires x in sorted[..n] && y in sorted && y !in sorted[..n]
    ensures Less(Xor(x, r), Xor(y, r))
  {
    assert sorted == sorted[..n] + sorted[n..];
    var i :| 0 <= i < n && sorted[..n][i] == x;
    var j :| 0 <= j < |sorted| - n && sorted[n..][j] == y;
    assert sorted[i] == x && sorted[n + j] == y;
    assert Nearer(r)(sorted[i], sorted[n + j]);
    if Xor(x, r) == Xor(y, r) { XorInjective(x, y, r); }
  }

  lemma SortedDistinct(a: seq<Hash>, b: seq<Hash>)
    requires Distinct(a) && multiset(a) == multiset(b)
    ensures Distinct(b)
  {
    SameElements(a, b);
    DistinctCardinality(a);
    assert Elements(a) == Elements(b);
    FewRepeats(b);
  }

  lemma {:induction false} FewRepeats(b: seq<Hash>)
    requires |Elements(b)| == |b|
    ensures Distinct(b)
  {
    if b != [] {
      var n := |b| - 1;
      var front := b[..n];
      assert b == front + [b[n]];
      assert Elements(b) == Elements(front) + {b[n]};
      ElementsCardinality(front);
      FewRepeats(front);
      assert b[n] !in Elements(front);
      forall i, j | 0 <= i < j < |b| ensures b[i] != b[j] {
        assert front[i] in Elements(front);
        assert j < n ==> front[i] == b[i] && front[j] == b[j];
      }
    }
  }

  // ---------- the committee ----------

  function Ids(workers: seq<Hash>, idOf: Hash -> Id): (r: seq<Id>)
    ensures |r| == |workers| && forall i :: 0 <= i < |r| ==> r[i] == idOf(workers[i])
  {
    seq<Id>(|workers|, i requires 0 <= i < |workers| => idOf(workers[i]))
  }

  /** The committee a producer enters the cycle with. */
  function Committee(pool: seq<Hash>, r: Hash, count: nat, idOf: Hash -> Id): seq<Id> {
    Canonical(Ids(SelectProducers(pool, r, count), idOf))
  }

  lemma {:induction false} SameSetSameMultiset(a: seq<Hash>, b: seq<Hash>)
    requires Distinct(a) && Distinct(b) && Elements(a) == Elements(b)
    ensures multiset(a) == multiset(b)
  {
    forall x ensures multiset(a)[x] == multiset(b)[x] {
      assert x in a <==> x in Elements(a);
      assert x in b <==> x in Elements(b);
      OccursOnce(a, x);
      OccursOnce(b, x);
    }
  }

  lemma {:induction false} OccursOnce(s: seq<Hash>, x: Hash)
    requires Distinct(s)
    ensures multiset(s)[x] == if x in s then 1 else 0
  {
    if s != [] {
      var n := |s| - 1;
      OccursOnce(s[..n], x);
      assert s == s[..n] + [s[n]];
    }
  }

  /** Duplicate-free pools of the same workers elect the same committee. */
  lemma CommitteeDependsOnSet(a: seq<Hash>, b: seq<Hash>, r: Hash, count: nat, idOf: Hash -> Id)
    requires Distinct(a) && Distinct(b) && Elements(a) == Elements(b)
    ensures Committee(a, r, count, idOf) == Committee(b, r, count, idOf)
  {
    SameSetSameMultiset(a, b);
    SelectionIgnoresOrder(a, b, r, count);
  }

  ghost predicate OneIdEach(pool: seq<Hash>, idOf: Hash -> Id) {
    forall x, y :: x in pool && y in pool && idOf(x) == idOf(y) ==> x == y
  }

  /** It has exactly min(count, pool) members, the ids of the workers nearest to the draw. */
  lemma CommitteeIsNearest(pool: seq<Hash>, r: Hash, count: nat, idOf: Hash -> Id)
    requires Distinct(pool) && OneIdEach(pool, idOf)
    ensures var committee := Committee(pool, r, count, idOf);
            && |committee| == Min(count, |pool|)
            && (forall id :: id in committee ==> exists w :: w in pool && idOf(w) == id)
            && forall x, y :: x in pool && y in pool && idOf(x) in committee && idOf(y) !in committee ==>
                 Less(Xor(x, r), Xor(y, r))
  {
    var chosen := SelectProducers(pool, r, count);
    SelectionIsNearest(pool, r, count);
    assert forall x :: x in chosen ==> x in Elements(chosen);
    assert forall x :: x in Elements(pool) ==> x in pool;
    CommitteeMembers(chosen, idOf);
    IdsDistinct(pool, chosen, idOf);
  }

  lemma CommitteeMembers(chosen: seq<Hash>, idOf: Hash -> Id)
    ensures forall id :: id in Canonical(Ids(chosen, idOf)) <==> exists w :: w in chosen && idOf(w) == id
  {
    var ids := Ids(chosen, idOf);
    CanonicalMembers(ids);
    forall id ensures id in ids <==> exists w :: w in chosen && idOf(w) == id {
      if id in ids {
        var i :| 0 <= i < |ids| && ids[i] == id;
        assert chosen[i] in chosen;
      }
      if w :| w in chosen && idOf(w) == id {
        var i :| 0 <= i < |chosen| && chosen[i] == w;
        assert ids[i] == id;
      }
    }
  }

  lemma IdsDistinct(pool: seq<Hash>, chosen: seq<Hash>, idOf: Hash -> Id)
    requires OneIdEach(pool, idOf) && |Elements(chosen)| == |chosen| && forall x :: x in chosen ==> x in pool
    ensures |Canonical(Ids(chosen, idOf))| == |chosen|
  {
    var ids := Ids(chosen, idOf);
    FewRepeats(chosen);
    forall i, j | 0 <= i < j < |ids| ensures ids[i] != ids[j] {
      assert chosen[i] in pool && chosen[j] in pool;
    }
    DistinctCardinality(ids);
    CanonicalStrict(ids);
    CanonicalElements(ids);
    DistinctCardinality(Canonical(ids));
  }

  /** A repeated worker can take a second seat, so the pool must list each worker once. */
  lemma RepeatedWorkerTakesTwoSeats(w: Hash, v: Hash, r: Hash)
    requires Less(Xor(w, r), Xor(v, r))
    ensures SelectProducers([w, w, v], r, 2) == [w, w] && SelectProducers([w, v], r, 2) == [w, v]
  {
    InOrder(w, v, r);
    NearestFirst([w, w, v], r, 2);
    NearestFirst([w, v], r, 2);
    assert [w, w, v][..2] == [w, w] && [w, v][..2] == [w, v];
  }

  lemma InOrder(w: Hash, v: Hash, r: Hash)
    requires Less(Xor(w, r), Xor(v, r))
    ensures SortedBy([w, w, v], Nearer(r)) && SortedBy([w, v], Nearer(r))
  {
    LeqTotal(Xor(w, r), Xor(w, r));
  }

  lemma NearestFirst(pool: seq<Hash>, r: Hash, count: nat)
    requires SortedBy(pool, Nearer(r)) && count <= |pool|
    ensures SelectProducers(pool, r, count) == pool[..count]
  {
    NearerTotal(r);
    NearerTieFree(pool, r);
    SortBySorted(pool, Nearer(r));
    SortedUnique(pool, SortBy(pool, Nearer(r)), Nearer(r));
  }
}
