/** The library sort the node relies on, as a stable insertion sort, and its uniqueness. */
module Sorting {
  import opened Binary

  ghost predicate TotalPreorder<T(!new)>(le: (T, T) -> bool) {
    && (forall a, b :: le(a, b) || le(b, a))
    && (forall a, b, c :: le(a, b) && le(b, c) ==> le(a, c))
  }

  ghost predicate SortedBy<T>(s: seq<T>, le: (T, T) -> bool) {
    forall i, j :: 0 <= i < j < |s| ==> le(s[i], s[j])
  }

  /** No two different elements of `s` tie under `le`. */
  ghost predicate TieFree<T>(s: seq<T>, le: (T, T) -> bool) {
    forall i, j :: 0 <= i < |s| && 0 <= j < |s| && le(s[i], s[j]) && le(s[j], s[i]) ==> s[i] == s[j]
  }

  function Insert<T>(x: T, s: seq<T>, le: (T, T) -> bool): (r: seq<T>)
    ensures multiset(r) == multiset(s) + multiset{x}
  {
    if s == [] || le(x, s[0]) then [x] + s
    else
      assert s == [s[0]] + s[1..];
      [s[0]] + Insert(x, s[1..], le)
  }

  /** Stable: an element ahead of its equals in `s` stays ahead of them. */
  function SortBy<T>(s: seq<T>, le: (T, T) -> bool): (r: seq<T>)
    ensures multiset(r) == multiset(s)
  {
    if s == [] then []
    else
      assert s == [s[0]] + s[1..];
      Insert(s[0], SortBy(s[1..], le), le)
  }

  lemma SameElements<T>(a: seq<T>, b: seq<T>)
    requires multiset(a) == multiset(b)
    ensures |a| == |b|
    ensures forall x :: x in a <==> x in b
  {
    assert |multiset(a)| == |multiset(b)|;
    forall x ensures x in a <==> x in b {
      assert x in a <==> x in multiset(a);
      assert x in b <==> x in multiset(b);
    }
  }

  lemma {:induction false} InsertSorted<T(!new)>(x: T, s: seq<T>, le: (T, T) -> bool)
    requires TotalPreorder(le) && SortedBy(s, le)
    ensures SortedBy(Insert(x, s, le), le)
  {
    var r := Insert(x, s, le);
    if s != [] && !le(x, s[0]) {
      InsertSorted(x, s[1..], le);
      var t := Insert(x, s[1..], le);
      forall j | 0 <= j < |t| ensures le(s[0], t[j]) {
        assert t[j] in multiset(t);
        assert t[j] == x || t[j] in s[1..];
      }
    }
  }

  lemma {:induction false} SortBySorted<T(!new)>(s: seq<T>, le: (T, T) -> bool)
    requires TotalPreorder(le)
    ensures SortedBy(SortBy(s, le), le)
  {
    if s != [] {
      SortBySorted(s[1..], le);
      InsertSorted(s[0], SortBy(s[1..], le), le);
    }
  }

  lemma RemoveAt<T>(s: seq<T>, i: nat)
    requires i < |s|
    ensures multiset(s[..i] + s[i + 1..]) == multiset(s) - multiset{s[i]}
    ensures multiset(s) == multiset(s[..i] + s[i + 1..]) + multiset{s[i]}
  {
    assert s == s[..i] + ([s[i]] + s[i + 1..]);
  }

  lemma TailMultiset<T>(s: seq<T>)
    requires s != []
    ensures multiset(s[1..]) == multiset(s) - multiset{s[0]}
  {
    assert s == [s[0]] + s[1..];
  }

  lemma SameHeads<T(!new)>(a: seq<T>, b: seq<T>, le: (T, T) -> bool)
    requires multiset(a) == multiset(b) && a != [] && |b| == |a|
    requires SortedBy(a, le) && SortedBy(b, le) && TieFree(a, le)
    ensures a[0] == b[0]
  {
    SameElements(a, b);
    assert a[0] in b && b[0] in a;
    var i :| 0 <= i < |b| && b[i] == a[0];
    var j :| 0 <= j < |a| && a[j] == b[0];
  }

  /** A tie-free multiset has only one sorted arrangement. */
  lemma {:induction false} SortedUnique<T(!new)>(a: seq<T>, b: seq<T>, le: (T, T) -> bool)
    requires multiset(a) == multiset(b)
    requires SortedBy(a, le) && SortedBy(b, le)
    requires TieFree(a, le)
    ensures a == b
  {
    SameElements(a, b);
    if a != [] {
      SameHeads(a, b, le);
      TailMultiset(a);
      TailMultiset(b);
      SortedUnique(a[1..], b[1..], le);
      assert a == [a[0]] + a[1..] && b == [b[0]] + b[1..];
    }
  }

  lemma TieFreePermutation<T>(a: seq<T>, b: seq<T>, le: (T, T) -> bool)
    requires multiset(a) == multiset(b) && TieFree(a, le)
    ensures TieFree(b, le)
  {
    SameElements(a, b);
    forall i, j | 0 <= i < |b| && 0 <= j < |b| && le(b[i], b[j]) && le(b[j], b[i])
      ensures b[i] == b[j]
    {
      assert b[i] in a && b[j] in a;
    }
  }

  lemma SortOfPermutations<T(!new)>(a: seq<T>, b: seq<T>, le: (T, T) -> bool)
    requires TotalPreorder(le)
    requires multiset(a) == multiset(b) && TieFree(a, le)
    ensures SortBy(a, le) == SortBy(b, le)
  {
    SortBySorted(a, le);
    SortBySorted(b, le);
    TieFreePermutation(a, SortBy(a, le), le);
    SortedUnique(SortBy(a, le), SortBy(b, le), le);
  }

  // ---------- stability ----------

  ghost predicate Ties<T>(x: T, y: T, le: (T, T) -> bool) { le(x, y) && le(y, x) }

  /** The elements of `s` that tie with `x`, in order. */
  ghost function TieClass<T>(x: T, s: seq<T>, le: (T, T) -> bool): seq<T> {
    if s == [] then []
    else (if Ties(x, s[0], le) then [s[0]] else []) + TieClass(x, s[1..], le)
  }

  lemma {:induction false} InsertKeepsTieClass<T(!new)>(x: T, y: T, s: seq<T>, le: (T, T) -> bool)
    requires TotalPreorder(le) && SortedBy(s, le)
    ensures TieClass(x, Insert(y, s, le), le) == TieClass(x, [y] + s, le)
  {
    if s == [] || le(y, s[0]) {
    } else {
      InsertKeepsTieClass(x, y, s[1..], le);
      var t := Insert(y, s[1..], le);
      assert ([s[0]] + t)[1..] == t;
      assert ([y] + s)[1..] == s;
      assert ([y] + s[1..])[1..] == s[1..];
      assert TieClass(x, [s[0]] + t, le) == (if Ties(x, s[0], le) then [s[0]] else []) + TieClass(x, t, le);
      assert !(Ties(x, s[0], le) && Ties(x, y, le));
    }
  }

  lemma {:induction false} SortIsStable<T(!new)>(x: T, s: seq<T>, le: (T, T) -> bool)
    requires TotalPreorder(le)
    ensures TieClass(x, SortBy(s, le), le) == TieClass(x, s, le)
  {
    if s != [] {
      SortIsStable(x, s[1..], le);
      SortBySorted(s[1..], le);
      var t := SortBy(s[1..], le);
      InsertKeepsTieClass(x, s[0], t, le);
      assert ([s[0]] + t)[1..] == t;
    }
  }

  // ---------- sorted, duplicate-free id lists ----------

  lemma LeqIsTotalPreorder()
    ensures TotalPreorder(Leq)
  {
    forall a: Octets, b: Octets ensures Leq(a, b) || Leq(b, a) { LeqTotal(a, b); }
    forall a: Octets, b: Octets, c: Octets | Leq(a, b) && Leq(b, c) ensures Leq(a, c) { LeqTransitive(a, b, c); }
  }

  ghost function Elements<T>(s: seq<T>): set<T> { set x | x in s }

  ghost predicate StrictlyIncreasing(s: seq<Octets>) {
    forall i, j :: 0 <= i < j < |s| ==> Less(s[i], s[j])
  }

  ghost predicate Distinct<T>(s: seq<T>) {
    forall i, j :: 0 <= i < j < |s| ==> s[i] != s[j]
  }

  /** Drops every element equal to its predecessor. */
  function Dedup(s: seq<Octets>): (r: seq<Octets>)
    ensures |r| <= |s|
    ensures forall x :: x in r <==> x in s
    ensures s != [] ==> r != [] && r[0] == s[0]
  {
    if |s| <= 1 then s
    else if s[0] == s[1] then Dedup(s[1..])
    else [s[0]] + Dedup(s[1..])
  }

  lemma {:induction false} DedupStrict(s: seq<Octets>)
    requires SortedBy(s, Leq)
    ensures StrictlyIncreasing(Dedup(s))
  {
    if |s| > 1 {
      DedupStrict(s[1..]);
      var t := Dedup(s[1..]);
      if s[0] != s[1] {
        forall j | 0 <= j < |t| ensures Less(s[0], t[j]) {
          assert t[j] in s[1..];
          if t[j] == s[0] {
            var k :| 0 <= k < |s[1..]| && s[1..][k] == t[j];
            assert Leq(s[0], s[1]);
            assert k > 0 ==> Leq(s[1], s[k + 1]);
            LeqAntisymmetric(s[0], s[1]);
          }
        }
      }
    }
  }

  /** `sort` then `dedup`: the canonical form of a committee. */
  function Canonical(ids: seq<Id>): seq<Id> {
    Dedup(SortBy(ids, Leq))
  }

  lemma CanonicalMembers(ids: seq<Id>)
    ensures forall x :: x in Canonical(ids) <==> x in ids
    ensures |Canonical(ids)| <= |ids|
    ensures Canonical(ids) == [] <==> ids == []
  {
    SameElements(ids, SortBy(ids, Leq));
  }

  lemma CanonicalStrict(ids: seq<Id>)
    ensures StrictlyIncreasing(Canonical(ids))
  {
    LeqIsTotalPreorder();
    SortBySorted(ids, Leq);
    DedupStrict(SortBy(ids, Leq));
  }

  lemma CanonicalElements(ids: seq<Id>)
    ensures Elements(Canonical(ids)) == Elements(ids)
  {
    CanonicalMembers(ids);
    forall x ensures x in Elements(Canonical(ids)) <==> x in Elements(ids) {
      assert x in Canonical(ids) <==> x in ids;
    }
  }

  lemma ElementsConcat<T>(a: seq<T>, b: seq<T>)
    ensures Elements(a + b) == Elements(a) + Elements(b)
  {
    forall x ensures x in Elements(a + b) <==> x in Elements(a) + Elements(b) {
      assert x in a + b <==> x in a || x in b;
    }
  }

  lemma ElementsSingle<T>(x: T)
    ensures Elements([x]) == {x}
  {}

  /** A set has only one strictly increasing listing. */
  lemma {:induction false} StrictUnique(a: seq<Octets>, b: seq<Octets>)
    requires StrictlyIncreasing(a) && StrictlyIncreasing(b)
    requires forall x :: x in a <==> x in b
    ensures a == b
  {
    assert b != [] ==> b[0] in a;
    if a != [] {
      assert a[0] in b;
      var i :| 0 <= i < |b| && b[i] == a[0];
      assert b[0] in a;
      var j :| 0 <= j < |a| && a[j] == b[0];
      if a[0] != b[0] { LeqAntisymmetric(a[0], b[0]); }
      forall x ensures x in a[1..] <==> x in b[1..] {
        TailMembership(a, x);
        TailMembership(b, x);
      }
      StrictUnique(a[1..], b[1..]);
    }
  }

  lemma TailMembership(a: seq<Octets>, x: Octets)
    requires StrictlyIncreasing(a) && a != []
    ensures x in a[1..] <==> x in a && x != a[0]
  {
    if x in a && x != a[0] {
      var k :| 0 <= k < |a| && a[k] == x;
      assert a[1..][k - 1] == x;
    }
  }

  /** The canonical form depends only on the set of ids: order and repetition do not matter. */
  lemma CanonicalDependsOnSet(a: seq<Id>, b: seq<Id>)
    requires forall x :: x in a <==> x in b
    ensures Canonical(a) == Canonical(b)
  {
    CanonicalStrict(a);
    CanonicalStrict(b);
    CanonicalMembers(a);
    CanonicalMembers(b);
    StrictUnique(Canonical(a), Canonical(b));
  }

  lemma CanonicalOfStrict(s: seq<Id>)
    requires StrictlyIncreasing(s)
    ensures Canonical(s) == s
  {
    CanonicalStrict(s);
    CanonicalMembers(s);
    StrictUnique(Canonical(s), s);
  }

  lemma {:induction false} DistinctCardinality<T>(s: seq<T>)
    requires Distinct(s)
    ensures |Elements(s)| == |s|
  {
    if s != [] {
      var n := |s| - 1;
      DistinctCardinality(s[..n]);
      assert s == s[..n] + [s[n]];
      assert Elements(s) == Elements(s[..n]) + {s[n]};
    }
  }

  lemma {:induction false} ElementsCardinality<T>(s: seq<T>)
    ensures |Elements(s)| <= |s|
  {
    if s == [] {
      assert Elements(s) == {};
    } else {
      var n := |s| - 1;
      ElementsCardinality(s[..n]);
      assert s == s[..n] + [s[n]];
      assert Elements(s) == Elements(s[..n]) + {s[n]};
    }
  }
}
