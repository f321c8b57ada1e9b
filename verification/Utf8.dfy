/** Well-formed UTF-8, as section 4 of RFC 3629 gives it: what a Rust string can hold. */
module Utf8 {
  import opened Binary

  predicate Tail(c: Byte) { 0x80 <= c <= 0xBF }

  predicate WellFormed(b: Octets)
    decreases |b|
  {
    if b == [] then true
    else if b[0] <= 0x7F then WellFormed(b[1..])
    else if 0xC2 <= b[0] <= 0xDF then |b| >= 2 && Tail(b[1]) && WellFormed(b[2..])
    else if 0xE0 <= b[0] <= 0xEF then
      && |b| >= 3 && Tail(b[1]) && Tail(b[2])
      && (b[0] == 0xE0 ==> b[1] >= 0xA0)
      && (b[0] == 0xED ==> b[1] <= 0x9F)
      && WellFormed(b[3..])
    else if 0xF0 <= b[0] <= 0xF4 then
      && |b| >= 4 && Tail(b[1]) && Tail(b[2]) && Tail(b[3])
      && (b[0] == 0xF0 ==> b[1] >= 0x90)
      && (b[0] == 0xF4 ==> b[1] <= 0x8F)
      && WellFormed(b[4..])
    else false
  }

  lemma {:induction false} AsciiIsWellFormed(b: Octets)
    requires forall i :: 0 <= i < |b| ==> b[i] <= 0x7F
    ensures WellFormed(b)
    decreases |b|
  {
    if b != [] { AsciiIsWellFormed(b[1..]); }
  }

  // ---------- the texts it stands for ----------

  /** A character: any code point but the surrogates. */
  predicate IsScalar(c: nat) { c <= 0x10FFFF && !(0xD800 <= c <= 0xDFFF) }

  function Encode(c: nat): Octets
    requires IsScalar(c)
  {
    if c < 0x80 then [c]
    else if c < 0x800 then [0xC0 + c / 0x40, 0x80 + c % 0x40]
    else if c < 0x1_0000 then [0xE0 + c / 0x1000, 0x80 + c / 0x40 % 0x40, 0x80 + c % 0x40]
    else [0xF0 + c / 0x4_0000, 0x80 + c / 0x1000 % 0x40, 0x80 + c / 0x40 % 0x40, 0x80 + c % 0x40]
  }

  ghost predicate IsText(cs: seq<nat>) { forall i :: 0 <= i < |cs| ==> IsScalar(cs[i]) }

  ghost function EncodeAll(cs: seq<nat>): Octets
    requires IsText(cs)
  {
    if cs == [] then [] else Encode(cs[0]) + EncodeAll(cs[1..])
  }

  ghost predicate Encodes(cs: seq<nat>, b: Octets) { IsText(cs) && EncodeAll(cs) == b }

  lemma CharacterFirst(c: nat, rest: Octets)
    requires IsScalar(c)
    ensures WellFormed(Encode(c) + rest) <==> WellFormed(rest)
  {
    var b := Encode(c) + rest;
    assert b[|Encode(c)|..] == rest;
  }

  lemma {:induction false} TextIsWellFormed(cs: seq<nat>)
    requires IsText(cs)
    ensures WellFormed(EncodeAll(cs))
  {
    if cs != [] {
      TextIsWellFormed(cs[1..]);
      CharacterFirst(cs[0], EncodeAll(cs[1..]));
    }
  }

  /** The first character of a well-formed string. */
  lemma FirstCharacter(b: Octets) returns (c: nat, rest: Octets)
    requires b != [] && WellFormed(b)
    ensures IsScalar(c) && b == Encode(c) + rest && WellFormed(rest) && |rest| < |b|
  {
    if b[0] <= 0x7F {
      c, rest := b[0], b[1..];
    } else if b[0] <= 0xDF {
      c := TwoBytes(b[0] - 0xC0, b[1] - 0x80);
      rest := b[2..];
    } else if b[0] <= 0xEF {
      c := ThreeBytes(b[0] - 0xE0, b[1] - 0x80, b[2] - 0x80);
      rest := b[3..];
    } else {
      c := FourBytes(b[0] - 0xF0, b[1] - 0x80, b[2] - 0x80, b[3] - 0x80);
      rest := b[4..];
    }
  }

  lemma TwoBytes(x: nat, y: nat) returns (c: nat)
    requires 2 <= x < 0x20 && y < 0x40
    ensures IsScalar(c) && Encode(c) == [0xC0 + x, 0x80 + y]
  {
    c := x * 0x40 + y;
    assert c / 0x40 == x && c % 0x40 == y;
  }

  lemma ThreeBytes(x: nat, y: nat, z: nat) returns (c: nat)
    requires x < 0x10 && y < 0x40 && z < 0x40 && (x == 0 ==> y >= 0x20) && (x == 0xD ==> y < 0x20)
    ensures IsScalar(c) && Encode(c) == [0xE0 + x, 0x80 + y, 0x80 + z]
  {
    var high := x * 0x40 + y;
    c := high * 0x40 + z;
    assert c / 0x40 == high && c % 0x40 == z && high / 0x40 == x && high % 0x40 == y;
    assert c / 0x1000 == x;
  }

  lemma FourBytes(x: nat, y: nat, z: nat, w: nat) returns (c: nat)
    requires x < 5 && y < 0x40 && z < 0x40 && w < 0x40 && (x == 0 ==> y >= 0x10) && (x == 4 ==> y < 0x10)
    ensures IsScalar(c) && Encode(c) == [0xF0 + x, 0x80 + y, 0x80 + z, 0x80 + w]
  {
    var top := x * 0x40 + y;
    var high := top * 0x40 + z;
    c := high * 0x40 + w;
    assert c / 0x40 == high && c % 0x40 == w && high % 0x40 == z && top % 0x40 == y;
    assert c / 0x1000 == top && c / 0x4_0000 == x;
  }

  lemma {:induction false} WellFormedIsText(b: Octets) returns (cs: seq<nat>)
    requires WellFormed(b)
    ensures Encodes(cs, b)
    decreases |b|
  {
    cs := [];
    if b != [] {
      var c, rest := FirstCharacter(b);
      var tail := WellFormedIsText(rest);
      cs := [c] + tail;
      assert cs[1..] == tail;
    }
  }

  /** The well-formed strings are exactly the encodings of texts. */
  lemma WellFormedExactly(b: Octets)
    ensures WellFormed(b) <==> exists cs :: Encodes(cs, b)
  {
    if WellFormed(b) { var cs := WellFormedIsText(b); }
    if cs :| Encodes(cs, b) { TextIsWellFormed(cs); }
  }
}
