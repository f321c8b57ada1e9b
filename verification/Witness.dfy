/** The producer-list witness: a Merkle root over the sorted, duplicate-free ids. */
module Witness {
  import opened Binary
  import opened Sorting
  import opened Merkle
  import Utf8

  function Leaves(H: HashFn, ids: seq<Id>): (r: seq<Hash>)
    ensures |r| == |ids|
    ensures forall i :: 0 <= i < |ids| ==> r[i] == H(ids[i])
  {
    seq<Hash>(|ids|, i requires 0 <= i < |ids| => H(ids[i]))
  }

  function ListWitness(H: HashFn, ids: seq<Id>): Hash {
    MerkleRoot(H, Leaves(H, Canonical(ids)))
  }

  method HashProducerList(H: HashFn, ids: seq<Id>) returns (root: Hash)
    ensures root == ListWitness(H, ids)
  {
    root := ComputeMerkleRoot(H, Leaves(H, Canonical(ids)));
  }

  lemma WitnessIgnoresOrderAndRepetition(H: HashFn, a: seq<Id>, b: seq<Id>)
    requires Elements(a) == Elements(b)
    ensures ListWitness(H, a) == ListWitness(H, b)
  {
    assert forall x :: x in a <==> x in Elements(a);
    assert forall x :: x in b <==> x in Elements(b);
    CanonicalDependsOnSet(a, b);
  }

  /** Every string hashed while computing the witness of `ids`. */
  ghost function HashedStrings(H: HashFn, ids: seq<Id>): set<Octets> {
    Elements(ids) + NodePreimages(H, Leaves(H, Canonical(ids)))
  }

  /** The leaves of `a` are, in order, a level of inner nodes of the tree of `b`. */
  ghost predicate Grafted(H: HashFn, a: seq<Id>, b: seq<Id>) {
    exists k: nat :: GraftedAt(H, a, b, k)
  }

  ghost predicate GraftedAt(H: HashFn, a: seq<Id>, b: seq<Id>, k: nat) {
    var y := Leaves(H, Canonical(b));
    && k > 0 && |Climb(H, y, k - 1)| > 1
    && Leaves(H, Canonical(a)) == Climb(H, y, k)
  }

  lemma LeavesDistinct(H: HashFn, ids: seq<Id>)
    requires CollisionFree(H, Elements(ids))
    ensures Distinct(Leaves(H, Canonical(ids)))
  {
    var c := Canonical(ids);
    CanonicalMembers(ids);
    CanonicalStrict(ids);
    forall i, j | 0 <= i < j < |c| ensures H(c[i]) != H(c[j]) {
      assert c[i] in ids && c[j] in ids;
      assert Less(c[i], c[j]);
    }
  }

  lemma {:induction false} ClimbAtMost(H: HashFn, level: seq<Hash>, k: nat)
    requires k > 0 && |Climb(H, level, k - 1)| > 1
    ensures |Climb(H, level, k)| < |level|
    decreases k
  {
    ClimbStep(H, level, k - 1);
  }

  lemma GraftedGivesEqualRoots(H: HashFn, a: seq<Id>, b: seq<Id>)
    requires Grafted(H, a, b)
    ensures ListWitness(H, a) == ListWitness(H, b)
    ensures Elements(a) != Elements(b)
  {
    var k: nat :| GraftedAt(H, a, b, k);
    var y := Leaves(H, Canonical(b));
    ClimbKeepsRoot(H, y, k);
    ClimbAtMost(H, y, k);
    if Elements(a) == Elements(b) {
      assert forall x :: x in a <==> x in Elements(a);
      assert forall x :: x in b <==> x in Elements(b);
      CanonicalDependsOnSet(a, b);
      assert false;
    }
  }

  /** The witness commits to the set of ids, except across a graft.

      With a digest that separates the strings hashed for `a` and for `b` and never yields the
      all-zero root of the empty list, the two witnesses agree exactly when the sets do, unless
      the ids of one list are the node inputs of a whole level of the other list's tree.
   */
  lemma WitnessExactUnlessGrafted(H: HashFn, a: seq<Id>, b: seq<Id>)
    requires CollisionFree(H, HashedStrings(H, a) + HashedStrings(H, b))
    requires NeverZero(H, HashedStrings(H, a) + HashedStrings(H, b))
    ensures (ListWitness(H, a) == ListWitness(H, b) <==> Elements(a) == Elements(b))
       <==> !Grafted(H, a, b) && !Grafted(H, b, a)
  {
    if Grafted(H, a, b) {
      GraftedGivesEqualRoots(H, a, b);
    } else if Grafted(H, b, a) {
      GraftedGivesEqualRoots(H, b, a);
    } else {
      if Elements(a) == Elements(b) {
        WitnessIgnoresOrderAndRepetition(H, a, b);
      }
      if ListWitness(H, a) == ListWitness(H, b) {
        EqualWitnesses(H, a, b);
      }
    }
  }

  lemma EqualWitnesses(H: HashFn, a: seq<Id>, b: seq<Id>)
    requires CollisionFree(H, HashedStrings(H, a) + HashedStrings(H, b))
    requires NeverZero(H, HashedStrings(H, a) + HashedStrings(H, b))
    requires ListWitness(H, a) == ListWitness(H, b)
    requires !Grafted(H, a, b) && !Grafted(H, b, a)
    ensures Elements(a) == Elements(b)
  {
    var x, y := Leaves(H, Canonical(a)), Leaves(H, Canonical(b));
    CanonicalMembers(a);
    CanonicalMembers(b);
    if a == [] {
      RootNotZero(H, b);
    } else if b == [] {
      RootNotZero(H, a);
    } else {
      LeavesDistinct(H, a);
      LeavesDistinct(H, b);
      CollisionFreeSubset(H, NodePreimages(H, x) + NodePreimages(H, y), HashedStrings(H, a) + HashedStrings(H, b));
      var k := EqualRootsMeet(H, x, y);
      assert k > 0 ==> GraftedAt(H, a, b, k) || GraftedAt(H, b, a, k);
      assert x == y;
      SameLeaves(H, a, b);
    }
  }

  lemma SameLeaves(H: HashFn, a: seq<Id>, b: seq<Id>)
    requires CollisionFree(H, Elements(a) + Elements(b))
    requires Leaves(H, Canonical(a)) == Leaves(H, Canonical(b))
    ensures Elements(a) == Elements(b)
  {
    CanonicalElements(a);
    CanonicalElements(b);
    LeavesInjective(H, Canonical(a), Canonical(b));
  }

  lemma LeavesInjective(H: HashFn, c: seq<Id>, d: seq<Id>)
    requires CollisionFree(H, Elements(c) + Elements(d))
    requires Leaves(H, c) == Leaves(H, d)
    ensures c == d
  {
    assert |c| == |Leaves(H, c)| == |d|;
    forall i | 0 <= i < |c| ensures c[i] == d[i] {
      assert c[i] in Elements(c) && d[i] in Elements(d);
      assert Leaves(H, c)[i] == Leaves(H, d)[i];
    }
  }

  lemma RootNotZero(H: HashFn, ids: seq<Id>)
    requires NeverZero(H, HashedStrings(H, ids))
    ensures ListWitness(H, ids) == ZERO_HASH ==> ids == []
  {
    CanonicalMembers(ids);
    var c := Canonical(ids);
    if c != [] {
      assert forall i :: 0 <= i < |c| ==> c[i] in ids;
      RootOfNonZero(H, Leaves(H, c));
    }
  }

  lemma {:induction false} RootOfNonZero(H: HashFn, level: seq<Hash>)
    requires level != [] && NeverZero(H, NodePreimages(H, level))
    requires forall i :: 0 <= i < |level| ==> level[i] != ZERO_HASH
    ensures MerkleRoot(H, level) != ZERO_HASH
    decreases |level|
  {
    if |level| > 1 {
      forall k | 0 <= k < (|level| + 1) / 2 ensures NextLevel(H, level)[k] != ZERO_HASH {
        assert Preimage(level, k) in LevelPreimages(level);
      }
      RootOfNonZero(H, NextLevel(H, level));
    }
  }

  lemma FirstLeafIsNode(H: HashFn, a: seq<Id>, b: seq<Id>, k: nat) returns (p: Octets)
    requires GraftedAt(H, a, b, k)
    ensures a != [] && Canonical(a) != []
    ensures p in NodePreimages(H, Leaves(H, Canonical(b))) && H(p) == H(Canonical(a)[0])
  {
    p := HeadPreimage(H, Leaves(H, Canonical(b)), k);
    CanonicalMembers(a);
  }

  lemma HeadPreimage(H: HashFn, y: seq<Hash>, k: nat) returns (p: Octets)
    requires k > 0 && |Climb(H, y, k - 1)| > 1
    ensures p in NodePreimages(H, y) && Climb(H, y, k) != [] && Climb(H, y, k)[0] == H(p)
  {
    var z := Climb(H, y, k - 1);
    ClimbStep(H, y, k - 1);
    ClimbPreimages(H, y, k - 1);
    p := Preimage(z, 0);
    assert p in LevelPreimages(z);
    assert NextLevel(H, z)[0] == H(p);
  }

  /** A graft needs an id that is, byte for byte, the input of one of the other tree's nodes. */
  lemma GraftNeedsNodeInput(H: HashFn, a: seq<Id>, b: seq<Id>)
    requires CollisionFree(H, HashedStrings(H, a) + HashedStrings(H, b))
    requires Elements(a) !! NodePreimages(H, Leaves(H, Canonical(b)))
    ensures !Grafted(H, a, b)
  {
    if Grafted(H, a, b) {
      var k: nat :| GraftedAt(H, a, b, k);
      var p := FirstLeafIsNode(H, a, b, k);
      CanonicalMembers(a);
      assert false;
    }
  }

  lemma {:induction false} ClimbPreimages(H: HashFn, level: seq<Hash>, k: nat)
    requires |Climb(H, level, k)| > 1
    ensures LevelPreimages(Climb(H, level, k)) <= NodePreimages(H, level)
    decreases k
  {
    if k > 0 { ClimbPreimages(H, NextLevel(H, level), k - 1); }
  }

  /** The witness commits to the set whenever no id is a node input of the other tree. */
  lemma WitnessCommitsToSet(H: HashFn, a: seq<Id>, b: seq<Id>)
    requires CollisionFree(H, HashedStrings(H, a) + HashedStrings(H, b))
    requires NeverZero(H, HashedStrings(H, a) + HashedStrings(H, b))
    requires Elements(a) !! NodePreimages(H, Leaves(H, Canonical(b)))
    requires Elements(b) !! NodePreimages(H, Leaves(H, Canonical(a)))
    ensures ListWitness(H, a) == ListWitness(H, b) <==> Elements(a) == Elements(b)
  {
    GraftNeedsNodeInput(H, a, b);
    GraftNeedsNodeInput(H, b, a);
    WitnessExactUnlessGrafted(H, a, b);
  }

  lemma {:induction false} NodeInputsAreLong(H: HashFn, level: seq<Hash>, p: Octets)
    requires p in NodePreimages(H, level)
    ensures |p| == 64
    decreases |level|
  {
    if p !in LevelPreimages(level) { NodeInputsAreLong(H, NextLevel(H, level), p); }
  }

  /** In particular whenever no id is 64 bytes long, as every node input is. */
  lemma ShortIdsAreCommitted(H: HashFn, a: seq<Id>, b: seq<Id>)
    requires CollisionFree(H, HashedStrings(H, a) + HashedStrings(H, b))
    requires NeverZero(H, HashedStrings(H, a) + HashedStrings(H, b))
    requires forall id :: id in a || id in b ==> |id| != 64
    ensures ListWitness(H, a) == ListWitness(H, b) <==> Elements(a) == Elements(b)
  {
    forall p | p in NodePreimages(H, Leaves(H, Canonical(b))) ensures p !in Elements(a) {
      NodeInputsAreLong(H, Leaves(H, Canonical(b)), p);
    }
    forall p | p in NodePreimages(H, Leaves(H, Canonical(a))) ensures p !in Elements(b) {
      NodeInputsAreLong(H, Leaves(H, Canonical(a)), p);
    }
    WitnessCommitsToSet(H, a, b);
  }

  /** Any two ids share their witness with one byte string: leaves and nodes are hashed without a
      domain tag. */
  lemma TwoListsOneWitness(H: HashFn, first: Id, second: Id)
    requires Less(first, second)
    ensures ListWitness(H, [first, second]) == ListWitness(H, [Join(H(first), H(second))])
  {
    var two, one := [first, second], [Join(H(first), H(second))];
    assert StrictlyIncreasing(two) && StrictlyIncreasing(one);
    CanonicalOfStrict(two);
    CanonicalOfStrict(one);
    var level := Leaves(H, two);
    assert Preimage(level, 0) == Join(H(first), H(second));
    assert NextLevel(H, level) == Leaves(H, one);
  }

  function Repeated(c: Byte, n: nat): (r: Octets)
    ensures |r| == n && forall i :: 0 <= i < n ==> r[i] == c
  {
    if n == 0 then [] else Repeated(c, n - 1) + [c]
  }

  /** A digest that is text on the ids "a" and "b". */
  function TextDigest(): HashFn {
    (s: Octets) => if s == [97] then Repeated(65, 32) else if s == [98] then Repeated(66, 32) else Repeated(67, 32)
  }

  lemma TextDigests()
    ensures var H := TextDigest();
            H([97]) == Repeated(65, 32) && H([98]) == Repeated(66, 32) &&
            H(Join(Repeated(65, 32), Repeated(66, 32))) == Repeated(67, 32)
  {
    assert |Join(Repeated(65, 32), Repeated(66, 32))| == 64;
  }

  lemma StringsOfOne(H: HashFn, id: Id)
    ensures HashedStrings(H, [id]) == {id}
  {
    assert StrictlyIncreasing([id]);
    CanonicalOfStrict([id]);
    ElementsSingle(id);
  }

  lemma StringsOfTwo(H: HashFn, first: Id, second: Id)
    requires Less(first, second)
    ensures HashedStrings(H, [first, second]) == {first, second, Join(H(first), H(second))}
  {
    var two := [first, second];
    assert StrictlyIncreasing(two);
    CanonicalOfStrict(two);
    var level := Leaves(H, two);
    assert Preimage(level, 0) == Join(H(first), H(second));
    assert LevelPreimages(level) == {Preimage(level, 0)};
    assert NodePreimages(H, NextLevel(H, level)) == {} by { assert |NextLevel(H, level)| == 1; }
    assert NodePreimages(H, level) == {Join(H(first), H(second))};
    assert Elements(two) == {first, second};
  }

  /** That byte string can itself be an id: a digest and two lists of UTF-8 ids, different as
      sets, with no collision among anything hashed, and one witness. */
  lemma TextIdsCanGraft() returns (H: HashFn, a: seq<Id>, b: seq<Id>)
    ensures forall id :: id in a || id in b ==> Utf8.WellFormed(id)
    ensures Elements(a) != Elements(b) && ListWitness(H, a) == ListWitness(H, b)
    ensures CollisionFree(H, HashedStrings(H, a) + HashedStrings(H, b))
    ensures NeverZero(H, HashedStrings(H, a) + HashedStrings(H, b))
  {
    H := TextDigest();
    TextDigests();
    Different();
    TextIds();
    NotZero(65);
    NotZero(66);
    NotZero(67);
    a, b := GraftOfText(H, [97], [98]);
  }

  lemma NotZero(c: Byte)
    requires c != 0
    ensures Repeated(c, 32) != ZERO_HASH
  {
    assert Repeated(c, 32)[31] == c && ZERO_HASH == Zeros(31) + [0];
  }

  lemma TextIds()
    ensures Utf8.WellFormed([97]) && Utf8.WellFormed([98]) && Less([97], [98])
    ensures Utf8.WellFormed(Join(Repeated(65, 32), Repeated(66, 32)))
  {
    Utf8.AsciiIsWellFormed([97]);
    Utf8.AsciiIsWellFormed([98]);
    Utf8.AsciiIsWellFormed(Join(Repeated(65, 32), Repeated(66, 32)));
  }

  lemma GraftOfText(H: HashFn, x: Id, y: Id) returns (a: seq<Id>, b: seq<Id>)
    requires Less(x, y) && |x| != 64 && |y| != 64
    requires H(x) != H(y) && H(x) != H(Join(H(x), H(y))) && H(y) != H(Join(H(x), H(y)))
    requires H(x) != ZERO_HASH && H(y) != ZERO_HASH && H(Join(H(x), H(y))) != ZERO_HASH
    requires Utf8.WellFormed(x) && Utf8.WellFormed(y) && Utf8.WellFormed(Join(H(x), H(y)))
    ensures forall id :: id in a || id in b ==> Utf8.WellFormed(id)
    ensures Elements(a) != Elements(b) && ListWitness(H, a) == ListWitness(H, b)
    ensures CollisionFree(H, HashedStrings(H, a) + HashedStrings(H, b))
    ensures NeverZero(H, HashedStrings(H, a) + HashedStrings(H, b))
  {
    var graft := Join(H(x), H(y));
    a, b := [x, y], [graft];
    GraftWithoutCollision(H, x, y);
    NoneZero(H, x, y, graft);
  }

  lemma NoneZero(H: HashFn, x: Octets, y: Octets, z: Octets)
    requires H(x) != ZERO_HASH && H(y) != ZERO_HASH && H(z) != ZERO_HASH
    ensures NeverZero(H, {x, y, z})
  {}

  lemma GraftWithoutCollision(H: HashFn, x: Id, y: Id)
    requires Less(x, y) && |x| != 64 && |y| != 64
    requires H(x) != H(y) && H(x) != H(Join(H(x), H(y))) && H(y) != H(Join(H(x), H(y)))
    ensures var a, b := [x, y], [Join(H(x), H(y))];
            && Elements(a) != Elements(b) && ListWitness(H, a) == ListWitness(H, b)
            && CollisionFree(H, HashedStrings(H, a) + HashedStrings(H, b))
            && HashedStrings(H, a) + HashedStrings(H, b) == {x, y, Join(H(x), H(y))}
  {
    var g := Join(H(x), H(y));
    assert |g| == 64;
    TwoListsOneWitness(H, x, y);
    DifferentSets(x, y, g);
    StringsOfTwo(H, x, y);
    StringsOfOne(H, g);
    ThreeApart(H, x, y, g);
    assert {x, y, g} + {g} == {x, y, g};
  }

  lemma DifferentSets(x: Id, y: Id, g: Id)
    requires x != g
    ensures Elements([x, y]) != Elements([g])
  {
    assert x in Elements([x, y]) && x !in Elements([g]);
  }

  lemma ThreeApart(H: HashFn, x: Octets, y: Octets, z: Octets)
    requires H(x) != H(y) && H(x) != H(z) && H(y) != H(z)
    ensures CollisionFree(H, {x, y, z})
  {}

  lemma Different()
    ensures Repeated(65, 32) != Repeated(66, 32) && Repeated(66, 32) != Repeated(67, 32) &&
              Repeated(65, 32) != Repeated(67, 32)
  {
    assert Repeated(65, 32)[0] == 65 && Repeated(66, 32)[0] == 66 && Repeated(67, 32)[0] == 67;
  }
}
