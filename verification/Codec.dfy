/** The node's binary codec: fixed-width little-endian integers, raw 32-byte arrays, and
    vectors and strings behind a 4-byte length. Decoders read a prefix and return the rest.

    Encoders write the length of a vector as a u32, cutting off higher bits; decoders refuse
    lengths above a limit and text that is not UTF-8. `Limits` carries these settings.
 */
module Codec {
  import opened Binary
  import Utf8

  datatype Parsed<+T> = Failed | Parsed(value: T, rest: Octets)

  datatype Limits = Limits(items: U32, text: U32, checked: bool)

  /** The limits of the reader: a million items, a hundred million bytes of UTF-8 text. */
  const READER: Limits := Limits(1_000_000, 100_000_000, true)
  /** No limit beyond what the length field can hold. */
  const FIELD: Limits := Limits(MAX_U32, MAX_U32, false)

  type Encoder<!T> = T -> Octets
  type Decoder<!T> = Octets -> Parsed<T>

  /** Whatever follows an encoding of `x`, the decoder reads back `x` and leaves the rest. */
  ghost predicate Reads<T(!new)>(enc: Encoder<T>, dec: Decoder<T>, x: T) {
    forall rest: Octets :: dec(enc(x) + rest) == Parsed(x, rest)
  }

  // ---------- regrouping concatenations ----------

  lemma Regroup2(a: Octets, b: Octets, rest: Octets)
    ensures (a + b) + rest == a + (b + rest)
  {}

  lemma Regroup3(a: Octets, b: Octets, c: Octets, rest: Octets)
    ensures (a + (b + c)) + rest == a + (b + (c + rest))
  {}

  lemma Regroup4(a: Octets, b: Octets, c: Octets, d: Octets, rest: Octets)
    ensures (a + (b + (c + d))) + rest == a + (b + (c + (d + rest)))
  {}

  lemma Regroup5(a: Octets, b: Octets, c: Octets, d: Octets, e: Octets, rest: Octets)
    ensures (a + (b + (c + (d + e)))) + rest == a + (b + (c + (d + (e + rest))))
  {}

  lemma Tagged(tag: Byte, body: Octets, rest: Octets)
    ensures var b := ([tag] + body) + rest;
            b != [] && b[0] == tag && b[1..] == body + rest
  {}

  // ---------- integers and arrays ----------

  function EncU8(x: U8): Octets { [x] }

  function DecU8(b: Octets): Parsed<U8> {
    if b == [] then Failed else Parsed(b[0], b[1..])
  }

  function EncUnsigned(x: nat, width: nat): Octets { LittleEndian(x, width) }

  function DecUnsigned(b: Octets, width: nat): (r: Parsed<nat>)
    ensures r.Parsed? ==> r.value < Pow256(width) && |r.rest| == |b| - width
  {
    if |b| < width then Failed
    else
      FromLittleEndianBound(b[..width]);
      Parsed(FromLittleEndian(b[..width]), b[width..])
  }

  lemma ReadsUnsigned(x: nat, width: nat, rest: Octets)
    requires x < Pow256(width)
    ensures DecUnsigned(EncUnsigned(x, width) + rest, width) == Parsed(x, rest)
  {
    LittleEndianRoundTrip(x, width);
    var b := EncUnsigned(x, width) + rest;
    assert b[..width] == EncUnsigned(x, width) && b[width..] == rest;
  }

  function EncU32(x: U32): Octets { EncUnsigned(x, 4) }

  function DecU32(b: Octets): Parsed<U32> {
    Widths();
    match DecUnsigned(b, 4)
    case Failed => Failed
    case Parsed(x, rest) => Parsed(x, rest)
  }

  function EncU64(x: U64): Octets { EncUnsigned(x, 8) }

  function DecU64(b: Octets): Parsed<U64> {
    Widths();
    match DecUnsigned(b, 8)
    case Failed => Failed
    case Parsed(x, rest) => Parsed(x, rest)
  }

  /** Two's complement. */
  function EncI64(x: I64): Octets {
    EncUnsigned(if x < 0 then x + MAX_U64 + 1 else x, 8)
  }

  function DecI64(b: Octets): Parsed<I64> {
    match DecU64(b)
    case Failed => Failed
    case Parsed(x, rest) => Parsed(if x <= MAX_I64 then x else x - MAX_U64 - 1, rest)
  }

  function EncHash(x: Hash): Octets { x }

  function DecHash(b: Octets): Parsed<Hash> {
    if |b| < 32 then Failed else Parsed(b[..32], b[32..])
  }

  lemma ReadsU32(x: U32, rest: Octets)
    ensures DecU32(EncU32(x) + rest) == Parsed(x, rest)
  {
    Widths();
    ReadsUnsigned(x, 4, rest);
  }

  lemma ReadsU64(x: U64, rest: Octets)
    ensures DecU64(EncU64(x) + rest) == Parsed(x, rest)
  {
    Widths();
    ReadsUnsigned(x, 8, rest);
  }

  lemma ReadsI64(x: I64, rest: Octets)
    ensures DecI64(EncI64(x) + rest) == Parsed(x, rest)
  {
    Widths();
    ReadsUnsigned(if x < 0 then x + MAX_U64 + 1 else x, 8, rest);
  }

  lemma ReadsHash(x: Hash, rest: Octets)
    ensures DecHash(EncHash(x) + rest) == Parsed(x, rest)
  {
    var b := EncHash(x) + rest;
    assert b[..32] == x && b[32..] == rest;
  }

  lemma U8Reads(x: U8)
    ensures Reads(EncU8, DecU8, x)
  {
    forall rest: Octets ensures DecU8(EncU8(x) + rest) == Parsed(x, rest) {
      assert (EncU8(x) + rest)[1..] == rest;
    }
  }

  // ---------- vectors and text ----------

  function Flat<T>(enc: Encoder<T>, items: seq<T>): Octets {
    if items == [] then [] else enc(items[0]) + Flat(enc, items[1..])
  }

  function EncVec<T>(enc: Encoder<T>, items: seq<T>): Octets {
    LittleEndian(|items|, 4) + Flat(enc, items)
  }

  function DecItems<T>(dec: Decoder<T>, count: nat, b: Octets): Parsed<seq<T>>
    decreases count
  {
    if count == 0 then Parsed([], b)
    else match dec(b)
      case Failed => Failed
      case Parsed(x, rest) =>
        match DecItems(dec, count - 1, rest)
        case Failed => Failed
        case Parsed(xs, end) => Parsed([x] + xs, end)
  }

  function DecVec<T>(dec: Decoder<T>, limit: U32, b: Octets): Parsed<seq<T>> {
    match DecU32(b)
    case Failed => Failed
    case Parsed(count, rest) => if count > limit then Failed else DecItems(dec, count, rest)
  }

  lemma {:induction false} ReadsItems<T(!new)>(enc: Encoder<T>, dec: Decoder<T>, items: seq<T>, rest: Octets)
    requires forall i :: 0 <= i < |items| ==> Reads(enc, dec, items[i])
    ensures DecItems(dec, |items|, Flat(enc, items) + rest) == Parsed(items, rest)
  {
    if items == [] {
      assert Flat(enc, items) + rest == rest;
    } else {
      assert Reads(enc, dec, items[0]);
      var tail := Flat(enc, items[1..]) + rest;
      assert Flat(enc, items) + rest == enc(items[0]) + tail;
      ReadsItems(enc, dec, items[1..], rest);
      assert items == [items[0]] + items[1..];
    }
  }

  lemma ReadsVec<T(!new)>(enc: Encoder<T>, dec: Decoder<T>, limit: U32, items: seq<T>, rest: Octets)
    requires |items| <= limit
    requires forall i :: 0 <= i < |items| ==> Reads(enc, dec, items[i])
    ensures DecVec(dec, limit, EncVec(enc, items) + rest) == Parsed(items, rest)
  {
    var body := Flat(enc, items) + rest;
    assert EncVec(enc, items) + rest == EncU32(|items|) + body;
    ReadsU32(|items|, body);
    ReadsItems(enc, dec, items, rest);
  }

  /** A longer list than the limit is refused. */
  lemma TooManyItems<T(!new)>(enc: Encoder<T>, dec: Decoder<T>, limit: U32, items: seq<T>, rest: Octets)
    requires limit < |items| <= MAX_U32
    ensures DecVec(dec, limit, EncVec(enc, items) + rest) == Failed
  {
    var body := Flat(enc, items) + rest;
    assert EncVec(enc, items) + rest == EncU32(|items|) + body;
    ReadsU32(|items|, body);
  }

  /** The reader takes a million items and a hundred million bytes of text, and no more. */
  lemma ReaderLimits<T(!new)>(enc: Encoder<T>, dec: Decoder<T>, items: seq<T>, text: Octets, rest: Octets)
    requires |items| <= MAX_U32 && forall i :: 0 <= i < |items| ==> Reads(enc, dec, items[i])
    ensures DecVec(dec, READER.items, EncVec(enc, items) + rest) ==
              if |items| <= 1_000_000 then Parsed(items, rest) else Failed
    ensures TextFits(READER, text) <==> |text| <= 100_000_000 && Utf8.WellFormed(text)
  {
    if |items| <= 1_000_000 {
      ReadsVec(enc, dec, READER.items, items, rest);
    } else {
      TooManyItems(enc, dec, READER.items, items, rest);
    }
  }

  function EncBytes(x: Octets): Octets { EncVec(EncU8, x) }

  function DecBytes(limit: U32, b: Octets): Parsed<Octets> { DecVec(DecU8, limit, b) }

  lemma ReadsBytes(limit: U32, x: Octets, rest: Octets)
    requires |x| <= limit
    ensures DecBytes(limit, EncBytes(x) + rest) == Parsed(x, rest)
  {
    forall i | 0 <= i < |x| ensures Reads(EncU8, DecU8, x[i]) { U8Reads(x[i]); }
    ReadsVec(EncU8, DecU8, limit, x, rest);
  }

  /** A string is its bytes behind their length; ids are already byte strings here. */
  function EncText(x: Octets): Octets { LittleEndian(|x|, 4) + x }

  function DecText(l: Limits, b: Octets): Parsed<Octets> {
    match DecU32(b)
    case Failed => Failed
    case Parsed(count, rest) =>
      if count > l.text || |rest| < count || !TextFits(l, rest[..count]) then Failed
      else Parsed(rest[..count], rest[count..])
  }

  predicate TextFits(l: Limits, x: Octets) { |x| <= l.text && (l.checked ==> Utf8.WellFormed(x)) }

  /** A string reads back if and only if it is within the limit and, for the checking reader,
      well-formed. */
  lemma ReadsText(l: Limits, x: Octets, rest: Octets)
    requires |x| <= MAX_U32
    ensures DecText(l, EncText(x) + rest) == if TextFits(l, x) then Parsed(x, rest) else Failed
  {
    assert EncText(x) + rest == EncU32(|x|) + (x + rest);
    ReadsU32(|x|, x + rest);
    assert (x + rest)[..|x|] == x && (x + rest)[|x|..] == rest;
  }

  // ---------- what the bytes look like ----------

  /** Small numbers are one byte and zeros; negative ones are counted down from all bits set. */
  lemma SmallNumbers(n: U8)
    ensures EncU64(n) == [n, 0, 0, 0, 0, 0, 0, 0] && EncU32(n) == [n, 0, 0, 0] && EncI64(n) == EncU64(n)
  {
    ZeroBytes(3);
    ZeroBytes(7);
    assert LittleEndian(n, 8) == [n] + LittleEndian(0, 7) && LittleEndian(n, 4) == [n] + LittleEndian(0, 3);
  }

  lemma {:induction false} ZeroBytes(width: nat)
    ensures LittleEndian(0, width) == seq(width, _ => 0)
  {
    if width > 0 { ZeroBytes(width - 1); }
  }

  lemma {:induction false} FullBytes(width: nat)
    ensures LittleEndian(Pow256(width) - 1, width) == seq(width, _ => 255)
  {
    if width > 0 {
      FullBytes(width - 1);
      assert (Pow256(width) - 1) % 256 == 255 && (Pow256(width) - 1) / 256 == Pow256(width - 1) - 1;
    }
  }

  lemma MinusOne()
    ensures EncI64(-1) == [255, 255, 255, 255, 255, 255, 255, 255]
  {
    Widths();
    FullBytes(8);
  }

  lemma OneItem<T>(enc: Encoder<T>, x: T)
    ensures EncVec(enc, [x]) == [1, 0, 0, 0] + enc(x)
  {
    SmallNumbers(1);
    assert [x][1..] == [] && Flat(enc, [x]) == enc(x) + [];
  }

  lemma OneByteText(c: Byte)
    ensures EncText([c]) == [1, 0, 0, 0, c] && EncBytes([c]) == [1, 0, 0, 0, c]
  {
    SmallNumbers(1);
    OneItem(EncU8, c);
  }
}
