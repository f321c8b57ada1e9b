/** The binary Merkle root with odd-node duplication.

    The digest function is a parameter. What a theorem needs from it is stated about the byte
    strings that are actually hashed, never about all byte strings.
 */
module Merkle {
  import opened Binary
  import opened Sorting

  type HashFn = Octets -> Hash

  /** The digest separates the strings of `inputs`. */
  ghost predicate CollisionFree(H: HashFn, inputs: set<Octets>) {
    forall x, y :: x in inputs && y in inputs && H(x) == H(y) ==> x == y
  }

  ghost predicate NeverZero(H: HashFn, inputs: set<Octets>) {
    forall x :: x in inputs ==> H(x) != ZERO_HASH
  }

  function Join(left: Octets, right: Octets): Octets { left + right }

  /** What is hashed for node `k` above `level`: two children, or an odd last child twice. */
  function Preimage(level: seq<Hash>, k: nat): (r: Octets)
    requires 2 * k < |level|
    ensures |r| == 64
  {
    Join(level[2 * k], level[if 2 * k + 1 < |level| then 2 * k + 1 else 2 * k])
  }

  function NextLevel(H: HashFn, level: seq<Hash>): (r: seq<Hash>)
    ensures |r| == (|level| + 1) / 2
    ensures forall k :: 0 <= k < |r| ==> r[k] == H(Preimage(level, k))
  {
    seq<Hash>((|level| + 1) / 2, k requires 0 <= k < (|level| + 1) / 2 => H(Preimage(level, k)))
  }

  function MerkleRoot(H: HashFn, level: seq<Hash>): Hash
    decreases |level|
  {
    if level == [] then ZERO_HASH
    else if |level| == 1 then level[0]
    else MerkleRoot(H, NextLevel(H, level))
  }

  method ComputeMerkleRoot(H: HashFn, leaves: seq<Hash>) returns (root: Hash)
    ensures root == MerkleRoot(H, leaves)
  {
    if leaves == [] { return ZERO_HASH; }
    if |leaves| == 1 { return leaves[0]; }
    var level := leaves;
    while |level| > 1
      invariant level != []
      invariant MerkleRoot(H, level) == MerkleRoot(H, leaves)
      decreases |level|
    {
      var next: seq<Hash> := [];
      var i := 0;
      while i < |level|
        invariant 0 <= i <= |level| + 1 && i == 2 * |next|
        invariant |next| <= (|level| + 1) / 2
        invariant next == NextLevel(H, level)[..|next|]
      {
        var left := level[i];
        var right := if i + 1 < |level| then level[i + 1] else level[i];
        assert Join(left, right) == Preimage(level, |next|);
        next := next + [H(Join(left, right))];
        i := i + 2;
      }
      assert next == NextLevel(H, level);
      level := next;
    }
    root := level[0];
  }

  /** Three leaves: the odd one is paired with itself. */
  lemma RootOfThree(H: HashFn, a: Hash, b: Hash, c: Hash)
    ensures MerkleRoot(H, []) == ZERO_HASH && MerkleRoot(H, [a]) == a && MerkleRoot(H, [a, b]) == H(a + b)
    ensures MerkleRoot(H, [a, b, c]) == H(H(a + b) + H(c + c))
  {
    RootOfTwo(H, a, b);
    RootOfTwo(H, H(a + b), H(c + c));
    var next := NextLevel(H, [a, b, c]);
    assert Preimage([a, b, c], 0) == a + b && Preimage([a, b, c], 1) == c + c;
    assert next == [H(a + b), H(c + c)];
  }

  lemma RootOfTwo(H: HashFn, a: Hash, b: Hash)
    ensures MerkleRoot(H, [a, b]) == H(a + b)
  {
    var next := NextLevel(H, [a, b]);
    assert Preimage([a, b], 0) == a + b;
    assert next == [H(a + b)];
  }

  /** Between lists of one length, equal roots mean equal leaves. */
  lemma {:induction false} SameSizeRoots(H: HashFn, x: seq<Hash>, y: seq<Hash>)
    requires |x| == |y| && MerkleRoot(H, x) == MerkleRoot(H, y)
    requires CollisionFree(H, NodePreimages(H, x) + NodePreimages(H, y))
    ensures x == y
    decreases |x|
  {
    if |x| > 1 {
      var nx, ny := NextLevel(H, x), NextLevel(H, y);
      SameSizeRoots(H, nx, ny);
      forall k | 0 <= k < |nx| ensures Preimage(x, k) == Preimage(y, k) {
        assert Preimage(x, k) in LevelPreimages(x) && Preimage(y, k) in LevelPreimages(y);
        assert nx[k] == ny[k];
      }
      SamePreimages(x, y);
    }
  }

  lemma SamePreimages(x: seq<Hash>, y: seq<Hash>)
    requires |x| == |y| && forall k :: 0 <= k < (|x| + 1) / 2 ==> Preimage(x, k) == Preimage(y, k)
    ensures x == y
  {
    forall i | 0 <= i < |x| ensures x[i] == y[i] {
      var k := i / 2;
      assert Preimage(x, k) == Preimage(y, k);
      var l := if 2 * k + 1 < |x| then 2 * k + 1 else 2 * k;
      SplitPair(x[2 * k], x[l], y[2 * k], y[l]);
    }
  }

  // ---------- two distinct levels with the same parents are the same level ----------

  ghost function LevelPreimages(level: seq<Hash>): set<Octets> {
    set k | 0 <= k < (|level| + 1) / 2 :: Preimage(level, k)
  }

  /** Every string hashed above `level`. */
  ghost function NodePreimages(H: HashFn, level: seq<Hash>): set<Octets>
    decreases |level|
  {
    if |level| <= 1 then {} else LevelPreimages(level) + NodePreimages(H, NextLevel(H, level))
  }

  lemma NextLevelDistinct(H: HashFn, level: seq<Hash>)
    requires Distinct(level) && CollisionFree(H, LevelPreimages(level))
    ensures Distinct(NextLevel(H, level))
  {
    var next := NextLevel(H, level);
    forall i, j | 0 <= i < j < |next| ensures next[i] != next[j] {
      var p, q := Preimage(level, i), Preimage(level, j);
      assert p in LevelPreimages(level) && q in LevelPreimages(level);
      assert p[..32] == level[2 * i] && q[..32] == level[2 * j];
    }
  }

  lemma SplitPair(a: Hash, b: Hash, c: Hash, d: Hash)
    requires Join(a, b) == Join(c, d)
    ensures a == c && b == d
  {
    assert a == Join(a, b)[..32] && b == Join(a, b)[32..];
    assert c == Join(c, d)[..32] && d == Join(c, d)[32..];
  }

  lemma NextLevelInjective(H: HashFn, x: seq<Hash>, y: seq<Hash>)
    requires Distinct(x) && Distinct(y)
    requires CollisionFree(H, LevelPreimages(x) + LevelPreimages(y))
    requires NextLevel(H, x) == NextLevel(H, y)
    ensures x == y
  {
    var n := (|x| + 1) / 2;
    assert |NextLevel(H, x)| == n == |NextLevel(H, y)|;
    forall k | 0 <= k < n
      ensures x[2 * k] == y[2 * k]
      ensures x[if 2 * k + 1 < |x| then 2 * k + 1 else 2 * k] == y[if 2 * k + 1 < |y| then 2 * k + 1 else 2 * k]
    {
      assert Preimage(x, k) in LevelPreimages(x) && Preimage(y, k) in LevelPreimages(y);
      assert NextLevel(H, x)[k] == NextLevel(H, y)[k];
      SplitPair(x[2 * k], x[if 2 * k + 1 < |x| then 2 * k + 1 else 2 * k],
                y[2 * k], y[if 2 * k + 1 < |y| then 2 * k + 1 else 2 * k]);
    }
    if n > 0 {
      assert x[2 * (n - 1)] == y[2 * (n - 1)];
      assert |x| == |y|;
    }
    forall i | 0 <= i < |x| ensures x[i] == y[i] {
      assert x[2 * (i / 2)] == y[2 * (i / 2)];
    }
  }

  /** `level` after `k` steps towards its root (stopping there). */
  ghost function Climb(H: HashFn, level: seq<Hash>, k: nat): (r: seq<Hash>)
    ensures |r| <= |level|
    ensures level != [] ==> r != []
    decreases k
  {
    if k == 0 || |level| <= 1 then level else Climb(H, NextLevel(H, level), k - 1)
  }

  lemma {:induction false} ClimbKeepsRoot(H: HashFn, level: seq<Hash>, k: nat)
    ensures MerkleRoot(H, Climb(H, level, k)) == MerkleRoot(H, level)
    decreases k
  {
    if k > 0 && |level| > 1 { ClimbKeepsRoot(H, NextLevel(H, level), k - 1); }
  }

  /** One more step at the top, while the climb has not reached the root. */
  lemma {:induction false} ClimbStep(H: HashFn, level: seq<Hash>, k: nat)
    requires |Climb(H, level, k)| > 1
    ensures Climb(H, level, k + 1) == NextLevel(H, Climb(H, level, k))
    decreases k
  {
    if k > 0 { ClimbStep(H, NextLevel(H, level), k - 1); }
  }

  lemma {:induction false} ClimbWithin(H: HashFn, level: seq<Hash>, k: nat)
    ensures NodePreimages(H, Climb(H, level, k)) <= NodePreimages(H, level)
    decreases k
  {
    if k > 0 && |level| > 1 { ClimbWithin(H, NextLevel(H, level), k - 1); }
  }

  lemma {:induction false} ClimbDistinct(H: HashFn, level: seq<Hash>, k: nat)
    requires Distinct(level) && CollisionFree(H, NodePreimages(H, level))
    ensures Distinct(Climb(H, level, k))
    decreases k
  {
    if k > 0 && |level| > 1 {
      NextLevelDistinct(H, level);
      CollisionFreeSubset(H, NodePreimages(H, NextLevel(H, level)), NodePreimages(H, level));
      ClimbDistinct(H, NextLevel(H, level), k - 1);
    }
  }

  lemma {:induction false} ClimbToRoot(H: HashFn, level: seq<Hash>) returns (k: nat)
    requires level != []
    ensures Climb(H, level, k) == [MerkleRoot(H, level)]
    ensures k > 0 ==> |Climb(H, level, k - 1)| > 1
    decreases |level|
  {
    if |level| == 1 {
      k := 0;
    } else {
      var m := ClimbToRoot(H, NextLevel(H, level));
      k := m + 1;
    }
  }

  ghost predicate Meets(H: HashFn, x: seq<Hash>, y: seq<Hash>, k: nat) {
    x == Climb(H, y, k) && (k > 0 ==> |Climb(H, y, k - 1)| > 1)
  }

  /** Equal roots: one level is found, unchanged, somewhere above the other. */
  lemma {:induction false} EqualRootsMeet(H: HashFn, x: seq<Hash>, y: seq<Hash>) returns (k: nat)
    requires x != [] && y != [] && Distinct(x) && Distinct(y)
    requires CollisionFree(H, NodePreimages(H, x) + NodePreimages(H, y))
    requires MerkleRoot(H, x) == MerkleRoot(H, y)
    ensures Meets(H, x, y, k) || Meets(H, y, x, k)
    decreases |x| + |y|
  {
    if |x| == 1 {
      k := ClimbToRoot(H, y);
      assert x == [x[0]];
    } else if |y| == 1 {
      k := ClimbToRoot(H, x);
      assert y == [y[0]];
    } else {
      NextLevelDistinct(H, x);
      NextLevelDistinct(H, y);
      k := EqualRootsMeet(H, NextLevel(H, x), NextLevel(H, y));
      if Meets(H, NextLevel(H, x), NextLevel(H, y), k) {
        MeetBelow(H, x, y, k);
      } else {
        MeetBelow(H, y, x, k);
      }
    }
  }

  lemma MeetBelow(H: HashFn, x: seq<Hash>, y: seq<Hash>, k: nat)
    requires |x| > 1 && |y| > 1 && Distinct(x) && Distinct(y)
    requires CollisionFree(H, NodePreimages(H, x) + NodePreimages(H, y))
    requires Meets(H, NextLevel(H, x), NextLevel(H, y), k)
    ensures Meets(H, x, y, k)
  {
    var z := Climb(H, y, k);
    ClimbBelow(H, y, k);
    LevelOfClimb(H, y, k);
    CollisionFreeSubset(H, LevelPreimages(x) + LevelPreimages(z), NodePreimages(H, x) + NodePreimages(H, y));
    NextLevelInjective(H, x, z);
  }

  lemma CollisionFreeSubset(H: HashFn, small: set<Octets>, large: set<Octets>)
    requires small <= large && CollisionFree(H, large)
    ensures CollisionFree(H, small)
  {}

  lemma ClimbBelow(H: HashFn, y: seq<Hash>, k: nat)
    requires |y| > 1
    requires k > 0 ==> |Climb(H, NextLevel(H, y), k - 1)| > 1
    ensures |Climb(H, y, k)| > 1
    ensures NextLevel(H, Climb(H, y, k)) == Climb(H, NextLevel(H, y), k)
    ensures k > 0 ==> |Climb(H, y, k - 1)| > 1
  {
    assert |Climb(H, y, k)| > 1;
    ClimbStep(H, y, k);
    assert Climb(H, y, k + 1) == Climb(H, NextLevel(H, y), k);
    if k > 0 { ClimbShrinks(H, y, k - 1); }
  }

  lemma {:induction false} ClimbShrinks(H: HashFn, level: seq<Hash>, k: nat)
    ensures |Climb(H, level, k + 1)| <= |Climb(H, level, k)|
    decreases k
  {
    if k > 0 && |level| > 1 { ClimbShrinks(H, NextLevel(H, level), k - 1); }
  }

  lemma LevelOfClimb(H: HashFn, y: seq<Hash>, k: nat)
    requires Distinct(y) && CollisionFree(H, NodePreimages(H, y)) && |Climb(H, y, k)| > 1
    ensures Distinct(Climb(H, y, k))
    ensures LevelPreimages(Climb(H, y, k)) <= NodePreimages(H, y)
  {
    ClimbDistinct(H, y, k);
    ClimbWithin(H, y, k);
  }
}
