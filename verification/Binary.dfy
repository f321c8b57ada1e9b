/** Byte strings, machine integers and the orders and encodings the node puts on them.

    Identifiers are the UTF-8 bytes of the node's `String` ids: Rust compares strings,
    arrays and vectors of bytes lexicographically, which is `Leq`.
 */
module Binary {

  type Byte = x: int | 0 <= x < 256
  type Octets = seq<Byte>

  const MAX_U32: int := 0xFFFF_FFFF
  const MAX_U64: int := 0xFFFF_FFFF_FFFF_FFFF
  const MAX_I64: int := 0x7FFF_FFFF_FFFF_FFFF

  type U8 = Byte
  type U16 = x: int | 0 <= x < 0x1_0000
  type U32 = x: int | 0 <= x <= MAX_U32
  type U64 = x: int | 0 <= x <= MAX_U64
  type I64 = x: int | -MAX_I64 - 1 <= x <= MAX_I64

  /** A 32-byte digest, key or root. */
  type Hash = h: Octets | |h| == 32 witness Zeros(32)

  function Zeros(n: nat): (r: Octets)
    ensures |r| == n
  {
    if n == 0 then [] else Zeros(n - 1) + [0]
  }

  const ZERO_HASH: Hash := Zeros(32)

  type Id = Octets

  datatype Option<+T> = None | Some(value: T)

  function Min(a: int, b: int): int { if a <= b then a else b }

  function Max(a: int, b: int): int { if a >= b then a else b }

  // ---------- saturating u64 arithmetic ----------

  function SatAdd(a: U64, b: U64): U64 { if a + b <= MAX_U64 then a + b else MAX_U64 }

  function SatSub(a: U64, b: U64): U64 { if b <= a then a - b else 0 }

  function SatMul(a: U64, b: U64): (r: U64)
    ensures r <= a * b
  {
    MulNonNegative(a, b);
    if a * b <= MAX_U64 then a * b else MAX_U64
  }

  lemma MulNonNegative(a: int, b: int)
    requires 0 <= a && 0 <= b
    ensures 0 <= a * b
  {}

  // ---------- lexicographic order ----------

  predicate Leq(a: Octets, b: Octets)
    decreases |a|
  {
    if a == [] then true
    else if b == [] then false
    else if a[0] != b[0] then a[0] < b[0]
    else Leq(a[1..], b[1..])
  }

  predicate Less(a: Octets, b: Octets) { a != b && Leq(a, b) }

  lemma {:induction false} LeqTotal(a: Octets, b: Octets)
    ensures Leq(a, b) || Leq(b, a)
    decreases |a|
  {
    if a != [] && b != [] && a[0] == b[0] { LeqTotal(a[1..], b[1..]); }
  }

  lemma {:induction false} LeqAntisymmetric(a: Octets, b: Octets)
    requires Leq(a, b) && Leq(b, a)
    ensures a == b
    decreases |a|
  {
    if a != [] && b != [] {
      LeqAntisymmetric(a[1..], b[1..]);
      assert a == [a[0]] + a[1..] && b == [b[0]] + b[1..];
    }
  }

  lemma {:induction false} LeqTransitive(a: Octets, b: Octets, c: Octets)
    requires Leq(a, b) && Leq(b, c)
    ensures Leq(a, c)
    decreases |a|
  {
    if a != [] && a[0] == b[0] == c[0] { LeqTransitive(a[1..], b[1..], c[1..]); }
  }

  /** The dictionary order: a proper prefix comes first, else the first different byte decides. */
  lemma {:induction false} LessExactly(a: Octets, b: Octets)
    ensures Less(a, b) <==> (|a| < |b| && a == b[..|a|]) || exists i :: FirstDifference(a, b, i) && a[i] < b[i]
    decreases |a|
  {
    if a != [] && b != [] {
      if a[0] != b[0] {
        assert FirstDifference(a, b, 0);
      } else {
        LessExactly(a[1..], b[1..]);
        assert a == [a[0]] + a[1..] && b == [b[0]] + b[1..];
        if i :| FirstDifference(a[1..], b[1..], i) && a[1..][i] < b[1..][i] {
          assert FirstDifference(a, b, i + 1) && a[i + 1] < b[i + 1];
        }
        if i :| FirstDifference(a, b, i) && a[i] < b[i] {
          assert a[1..][..i - 1] == a[..i][1..] && b[1..][..i - 1] == b[..i][1..];
          assert FirstDifference(a[1..], b[1..], i - 1) && a[1..][i - 1] < b[1..][i - 1];
        }
      }
    }
  }

  ghost predicate FirstDifference(a: Octets, b: Octets, i: int) {
    0 <= i < |a| && i < |b| && a[..i] == b[..i] && a[i] != b[i]
  }

  // ---------- fixed-width little-endian integers ----------

  function Pow256(width: nat): (r: nat)
    ensures r > 0
  {
    if width == 0 then 1 else 256 * Pow256(width - 1)
  }

  /** The low `width` bytes of `n`, least significant first; higher bytes are cut off. */
  function LittleEndian(n: nat, width: nat): (r: Octets)
    ensures |r| == width
    decreases width
  {
    if width == 0 then [] else [n % 256] + LittleEndian(n / 256, width - 1)
  }

  function FromLittleEndian(b: Octets): (r: nat)
    decreases |b|
  {
    if b == [] then 0 else b[0] + 256 * FromLittleEndian(b[1..])
  }

  lemma {:induction false} LittleEndianRoundTrip(n: nat, width: nat)
    requires n < Pow256(width)
    ensures FromLittleEndian(LittleEndian(n, width)) == n
    decreases width
  {
    if width > 0 {
      LittleEndianRoundTrip(n / 256, width - 1);
      assert LittleEndian(n, width)[1..] == LittleEndian(n / 256, width - 1);
    }
  }

  lemma {:induction false} FromLittleEndianBound(b: Octets)
    ensures FromLittleEndian(b) < Pow256(|b|)
    decreases |b|
  {
    if b != [] { FromLittleEndianBound(b[1..]); }
  }

  lemma Widths()
    ensures Pow256(1) == 256
    ensures Pow256(4) == MAX_U32 + 1
    ensures Pow256(8) == MAX_U64 + 1
  {
    assert Pow256(2) == 0x1_0000;
    assert Pow256(4) == 0x1_0000_0000;
    assert Pow256(6) == 0x1_0000_0000_0000;
  }

  function U64Bytes(n: U64): (r: Octets)
    ensures |r| == 8
  {
    LittleEndian(n, 8)
  }

  lemma U64BytesInjective(n: U64, m: U64)
    requires U64Bytes(n) == U64Bytes(m)
    ensures n == m
  {
    Widths();
    LittleEndianRoundTrip(n, 8);
    LittleEndianRoundTrip(m, 8);
  }

  /** Reads a stored u64, as the metadata readers do: any other length is no value. */
  function U64FromBytes(b: Octets): (r: Option<U64>)
    ensures r.Some? <==> |b| == 8
  {
    if |b| != 8 then None
    else
      Widths();
      FromLittleEndianBound(b);
      Some(FromLittleEndian(b))
  }

  lemma U64RoundTrip(n: U64)
    ensures U64FromBytes(U64Bytes(n)) == Some(n)
  {
    Widths();
    LittleEndianRoundTrip(n, 8);
  }

  /** The least significant byte comes first. */
  lemma U64Weights(n: U64)
    ensures var b := U64Bytes(n);
            var low := b[0] as int + 0x100 * b[1] as int + 0x1_0000 * b[2] as int + 0x100_0000 * b[3] as int;
            var high := b[4] as int + 0x100 * b[5] as int + 0x1_0000 * b[6] as int + 0x100_0000 * b[7] as int;
            n == low + 0x1_0000_0000 * high
  {
    U64RoundTrip(n);
    var b := U64Bytes(n);
    Horner(b, 0);
    Horner(b, 1);
    Horner(b, 2);
    Horner(b, 3);
    Horner(b, 4);
    Horner(b, 5);
    Horner(b, 6);
    Horner(b, 7);
    assert b[0..] == b && b[8..] == [];
  }

  lemma Horner(b: Octets, i: nat)
    requires i < |b|
    ensures FromLittleEndian(b[i..]) == b[i] + 0x100 * FromLittleEndian(b[i + 1..])
  {
    assert b[i..][1..] == b[i + 1..];
  }
}
