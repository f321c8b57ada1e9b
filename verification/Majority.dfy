/** Counting agreeing producers: the plurality digest, ties broken by the smaller digest. */
module Majority {
  import opened Binary
  import opened Sorting

  /** What each producer reported. */
  type Reports = map<Id, Octets>

  ghost function Supporters(c: Reports, h: Octets): set<Id> {
    set id | id in c && c[id] == h
  }

  ghost predicate Outranks(c: Reports, h: Octets, k: Octets) {
    var sh, sk := |Supporters(c, h)|, |Supporters(c, k)|;
    sk < sh || (sk == sh && Leq(h, k))
  }

  ghost predicate IsPlurality(c: Reports, h: Octets) {
    h in c.Values && forall k :: k in c.Values ==> Outranks(c, h, k)
  }

  lemma PluralityUnique(c: Reports, h: Octets, k: Octets)
    requires IsPlurality(c, h) && IsPlurality(c, k)
    ensures h == k
  {
    LeqAntisymmetric(h, k);
  }

  lemma {:induction false} BestAmong(c: Reports, hs: set<Octets>) returns (h: Octets)
    requires hs != {}
    ensures h in hs && forall k :: k in hs ==> Outranks(c, h, k)
  {
    var x :| x in hs;
    LeqTotal(x, x);
    if hs == {x} {
      h := x;
    } else {
      var y := BestAmong(c, hs - {x});
      LeqTotal(x, y);
      if Outranks(c, y, x) {
        h := y;
      } else {
        h := x;
        forall k | k in hs ensures Outranks(c, x, k) {
          if k != x {
            assert Outranks(c, y, k);
            if Leq(x, y) && Leq(y, k) { LeqTransitive(x, y, k); }
          }
        }
      }
    }
  }

  ghost function Plurality(c: Reports): (h: Octets)
    requires c != map[]
    ensures IsPlurality(c, h)
  {
    PluralityExists(c);
    var h :| IsPlurality(c, h);
    h
  }

  lemma PluralityExists(c: Reports)
    requires c != map[]
    ensures exists h :: IsPlurality(c, h)
  {
    var id :| id in c;
    assert c[id] in c.Values;
    var h := BestAmong(c, c.Values);
    assert IsPlurality(c, h);
  }

  /** Of digests with equally many supporters the smaller one wins. */
  lemma TieGoesToSmaller(c: Reports, h: Octets, k: Octets)
    requires h in c.Values && k in c.Values && |Supporters(c, h)| == |Supporters(c, k)| && Less(h, k)
    ensures Plurality(c) != k
  {
    if Plurality(c) == k {
      assert Outranks(c, k, h);
      LeqAntisymmetric(h, k);
    }
  }

  // ---------- quorums ----------

  datatype Tally = TooFew(got: nat) | Split(highest: nat) | Agreed(digest: Octets)

  /** The outcome of a counting step that needs `required` agreeing producers. */
  ghost function Count(c: Reports, required: nat): (t: Tally)
    ensures t.Agreed? ==> t.digest in c.Values && |Supporters(c, t.digest)| >= required
  {
    if |c| < required then TooFew(|c|)
    else if c == map[] then Split(0)
    else
      var h := Plurality(c);
      var n := |Supporters(c, h)|;
      if n < required then Split(n) else Agreed(h)
  }

  lemma SupportersDisjoint(c: Reports, h: Octets, k: Octets)
    ensures |Supporters(c, h)| <= |c|
    ensures h != k ==> |Supporters(c, h)| + |Supporters(c, k)| <= |c|
  {
    var a, b := Supporters(c, h), Supporters(c, k);
    Subset(a, c.Keys);
    if h != k {
      assert a !! b;
      Subset(a + b, c.Keys);
    }
  }

  lemma {:induction false} Subset<T>(a: set<T>, b: set<T>)
    requires a <= b
    ensures |a| <= |b|
    decreases a
  {
    if a != {} {
      var x :| x in a;
      Subset(a - {x}, b - {x});
    }
  }

  /** When `required` is a strict majority of what was heard, the tie-break is never used. */
  lemma CountIsQuorum(c: Reports, required: nat, h: Octets)
    requires 2 * required > |c|
    ensures Count(c, required) == Agreed(h) <==> |Supporters(c, h)| >= required
  {
    SupportersDisjoint(c, h, h);
    if |c| >= required && c != map[] {
      var p := Plurality(c);
      SupportersDisjoint(c, p, h);
      if |Supporters(c, h)| >= required {
        var id :| id in Supporters(c, h);
        assert h in c.Values;
        assert Outranks(c, p, h);
      }
    }
  }

  /** When everyone heard says the same, only their number matters. */
  lemma Unanimous(c: Reports, required: nat, h: Octets)
    requires required > 0 && |c| >= required
    requires forall id :: id in c ==> c[id] == h
    ensures Count(c, required) == Agreed(h)
  {
    assert Supporters(c, h) == c.Keys;
    var p := Plurality(c);
    assert p in c.Values;
  }

  // ---------- sorted listings of sets ----------

  ghost function Listing(s: set<Id>): (r: seq<Id>)
    ensures StrictlyIncreasing(r) && Elements(r) == s
  {
    if s == {} then []
    else
      var x :| x in s;
      var tail := Listing(s - {x});
      CanonicalStrict([x] + tail);
      CanonicalElements([x] + tail);
      ElementsConcat([x], tail);
      ElementsSingle(x);
      Canonical([x] + tail)
  }

  lemma ListingUnique(r: seq<Id>)
    requires StrictlyIncreasing(r)
    ensures Listing(Elements(r)) == r
  {
    var l := Listing(Elements(r));
    assert forall x :: x in l <==> x in Elements(l);
    assert forall x :: x in r <==> x in Elements(r);
    StrictUnique(l, r);
  }

  // ---------- the loops ----------

  /** The ids reporting each digest so far, with `todo` still to be counted. */
  ghost predicate Grouped(c: Reports, todo: set<Id>, raw: map<Octets, seq<Id>>) {
    && todo <= c.Keys
    && (forall h :: h in raw ==> raw[h] != [] && Elements(raw[h]) == Supporters(c, h) - todo)
    && (forall id :: id in c && id !in todo ==> c[id] in raw)
  }

  lemma GroupOne(c: Reports, todo: set<Id>, raw: map<Octets, seq<Id>>, id: Id)
    requires Grouped(c, todo, raw) && id in todo
    ensures Grouped(c, todo - {id}, raw[c[id] := (if c[id] in raw then raw[c[id]] else []) + [id]])
  {
    var h := c[id];
    var group := if h in raw then raw[h] else [];
    assert Elements(group) == Supporters(c, h) - todo by {
      if h !in raw { assert Supporters(c, h) - todo == {}; }
    }
    ElementsConcat(group, [id]);
    ElementsSingle(id);
    assert Supporters(c, h) - (todo - {id}) == (Supporters(c, h) - todo) + {id};
    forall k | k in raw && k != h ensures Supporters(c, k) - (todo - {id}) == Supporters(c, k) - todo {}
  }

  ghost predicate Lists(list: seq<Id>, s: set<Id>) {
    StrictlyIncreasing(list) && Elements(list) == s
  }

  lemma OneGroup(c: Reports, raw: map<Octets, seq<Id>>, h: Octets)
    requires Grouped(c, {}, raw) && h in raw
    ensures h in c.Values
    ensures Lists(Canonical(raw[h]), Supporters(c, h))
  {
    var group := raw[h];
    assert group[0] in Elements(group);
    assert c[group[0]] == h;
    CanonicalStrict(group);
    CanonicalElements(group);
  }

  lemma GroupKeys(c: Reports, raw: map<Octets, seq<Id>>)
    requires Grouped(c, {}, raw)
    ensures raw.Keys == c.Values
  {
    forall h | h in raw ensures h in c.Values { OneGroup(c, raw, h); }
    forall h | h in c.Values ensures h in raw {
      var id :| id in c && c[id] == h;
    }
  }

  /** The reports are visited in no particular order; each group of ids is then sorted. */
  method GroupByDigest(c: Reports) returns (groups: map<Octets, seq<Id>>)
    ensures groups.Keys == c.Values
    ensures forall h :: h in groups ==> Lists(groups[h], Supporters(c, h))
  {
    var raw: map<Octets, seq<Id>> := map[];
    var todo := c.Keys;
    while todo != {}
      invariant Grouped(c, todo, raw)
      decreases todo
    {
      var id :| id in todo;
      GroupOne(c, todo, raw, id);
      raw := raw[c[id] := (if c[id] in raw then raw[c[id]] else []) + [id]];
      todo := todo - {id};
    }
    GroupKeys(c, raw);
    groups := map h | h in raw :: Canonical(raw[h]);
    forall h | h in groups ensures Lists(groups[h], Supporters(c, h)) { OneGroup(c, raw, h); }
  }

  method SortedKeys(keys: set<Octets>) returns (r: seq<Octets>)
    ensures StrictlyIncreasing(r) && Elements(r) == keys
  {
    r := [];
    var todo := keys;
    while todo != {}
      invariant todo <= keys && Elements(r) == keys - todo
      decreases todo
    {
      var k :| k in todo;
      todo := todo - {k};
      ElementsConcat(r, [k]);
      ElementsSingle(k);
      r := r + [k];
    }
    CanonicalStrict(r);
    CanonicalElements(r);
    r := Canonical(r);
  }

  /** `best` leads the first `i` digests. */
  ghost predicate Leads(c: Reports, keys: seq<Octets>, i: nat, best: Octets)
    requires i <= |keys|
  {
    && (exists j :: 0 <= j < i && keys[j] == best)
    && forall j :: 0 <= j < i ==> Outranks(c, best, keys[j])
  }

  lemma NextDigest(c: Reports, keys: seq<Octets>, i: nat, best: Octets)
    requires StrictlyIncreasing(keys) && i < |keys| && Leads(c, keys, i, best)
    ensures !Less(keys[i], best)
    ensures Leads(c, keys, i + 1, if |Supporters(c, keys[i])| > |Supporters(c, best)| then keys[i] else best)
  {
    var j :| 0 <= j < i && keys[j] == best;
    assert Less(best, keys[i]);
    LeqTotal(keys[i], keys[i]);
    if Less(keys[i], best) { LeqAntisymmetric(best, keys[i]); }
  }

  method FindPlurality(c: Reports) returns (best: Option<Octets>, list: seq<Id>)
    ensures best.None? <==> c == map[]
    ensures best.None? ==> list == []
    ensures best.Some? ==> IsPlurality(c, best.value) && list == Listing(Supporters(c, best.value))
  {
    var groups := GroupByDigest(c);
    var keys := SortedKeys(groups.Keys);
    assert forall k :: k in keys <==> k in Elements(keys);
    best, list := None, [];
    for i := 0 to |keys|
      invariant best.None? <==> i == 0
      invariant best.None? ==> list == []
      invariant best.Some? ==> best.value in groups && list == groups[best.value] && Leads(c, keys, i, best.value)
    {
      var h := keys[i];
      assert h in groups;
      var producers := groups[h];
      DistinctCardinality(producers);
      GroupNonEmpty(c, h);
      LeqTotal(h, h);
      if best.Some? {
        DistinctCardinality(list);
        NextDigest(c, keys, i, best.value);
      }
      if |producers| > |list| {
        best, list := Some(h), producers;
      } else if |producers| == |list| {
        if best.None? || Less(h, best.value) {
          best, list := Some(h), producers;
        }
      }
    }
    assert forall k :: k in c.Values <==> k in keys;
    if best.Some? { ListingUnique(list); }
    assert c == map[] <==> c.Values == {} by { EmptyValues(c); }
  }

  lemma EmptyValues(c: Reports)
    ensures c == map[] <==> c.Values == {}
  {
    if c != map[] {
      var id :| id in c;
      assert c[id] in c.Values;
    }
  }

  /** The counting step shared by the three later phases. */
  method CountReports(c: Reports, required: nat) returns (t: Tally, list: seq<Id>)
    ensures t == Count(c, required)
    ensures t.Agreed? ==> list == Listing(Supporters(c, t.digest))
  {
    list := [];
    if |c| < required { return TooFew(|c|), list; }
    var best;
    best, list := FindPlurality(c);
    if best.None? { return Split(0), list; }
    PluralityUnique(c, best.value, Plurality(c));
    ListingSize(Supporters(c, best.value));
    if |list| < required { return Split(|list|), list; }
    t := Agreed(best.value);
  }

  lemma GroupNonEmpty(c: Reports, h: Octets)
    requires h in c.Values
    ensures |Supporters(c, h)| > 0
  {
    var id :| id in c && c[id] == h;
    assert id in Supporters(c, h);
  }

  lemma ListingSize(s: set<Id>)
    ensures |Listing(s)| == |s|
  {
    DistinctCardinality(Listing(s));
  }
}
