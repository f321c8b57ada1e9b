/** What the finality and the state-root certificates share: keys, committees, the two-thirds
    threshold and the loop over signed ballots. */
module Certificates {
  import opened Binary
  import opened Sorting
  import opened Merkle
  import Majority

  /** The digests and the signature scheme, which the certificates only call. */
  datatype Suite = Suite(
    hash: HashFn,
    trunc: HashFn,
    validKey: Hash -> bool,
    validSignature: Octets -> bool,
    verifies: (Hash, Hash, Octets) -> bool)

  // ---------- ids are hexadecimal keys ----------

  function HexValue(c: Byte): Option<Byte> {
    if 48 <= c <= 57 then Some(c - 48)
    else if 97 <= c <= 102 then Some(c - 87)
    else if 65 <= c <= 70 then Some(c - 55)
    else None
  }

  function HexDecode(s: Octets): (r: Option<Octets>)
    ensures r.Some? ==> 2 * |r.value| == |s|
  {
    if s == [] then Some([])
    else if |s| == 1 then None
    else
      match (HexValue(s[0]), HexValue(s[1]), HexDecode(s[2..]))
      case (Some(hi), Some(lo), Some(rest)) => Some([16 * hi + lo] + rest)
      case _ => None
  }

  function KeyOf(id: Id): Option<Hash> {
    if |id| != 64 then None
    else match HexDecode(id)
      case None => None
      case Some(v) => Some(v)
  }

  function Lower(c: Byte): Byte { if 65 <= c <= 70 then c + 32 else c }

  function LowerCase(s: Octets): (r: Octets)
    ensures |r| == |s|
  {
    seq<Byte>(|s|, i requires 0 <= i < |s| => Lower(s[i]))
  }

  lemma PairIgnoresCase(a: Byte, b: Byte, c: Byte, d: Byte)
    requires HexValue(a).Some? && HexValue(b).Some? && HexValue(c).Some? && HexValue(d).Some?
    ensures 16 * HexValue(a).value + HexValue(b).value == 16 * HexValue(c).value + HexValue(d).value <==>
              Lower(a) == Lower(c) && Lower(b) == Lower(d)
  {}

  lemma LowerCasePair(s: Octets)
    requires |s| >= 2
    ensures LowerCase(s) == [Lower(s[0]), Lower(s[1])] + LowerCase(s[2..])
  {}

  lemma TwoThenRest(x: Byte, y: Byte, s: Octets, z: Byte, w: Byte, t: Octets)
    ensures [x, y] + s == [z, w] + t <==> x == z && y == w && s == t
  {
    var a, b := [x, y] + s, [z, w] + t;
    assert a[0] == x && a[1] == y && a[2..] == s && b[0] == z && b[1] == w && b[2..] == t;
  }

  lemma {:induction false} DecodeIgnoresCase(a: Octets, b: Octets)
    requires HexDecode(a).Some? && HexDecode(b).Some? && |a| == |b|
    ensures HexDecode(a) == HexDecode(b) <==> LowerCase(a) == LowerCase(b)
    decreases |a|
  {
    if a == [] {
      assert LowerCase(a) == LowerCase(b);
    } else {
      DecodeIgnoresCase(a[2..], b[2..]);
      LowerCasePair(a);
      LowerCasePair(b);
      TwoThenRest(Lower(a[0]), Lower(a[1]), LowerCase(a[2..]), Lower(b[0]), Lower(b[1]), LowerCase(b[2..]));
      PairIgnoresCase(a[0], a[1], b[0], b[1]);
      DecodedPair(a);
      DecodedPair(b);
    }
  }

  lemma DecodedPair(s: Octets)
    requires |s| >= 2 && HexDecode(s).Some?
    ensures HexValue(s[0]).Some? && HexValue(s[1]).Some? && HexDecode(s[2..]).Some?
    ensures var x := HexDecode(s).value;
            x != [] && x[0] == 16 * HexValue(s[0]).value + HexValue(s[1]).value && x[1..] == HexDecode(s[2..]).value &&
            x == [x[0]] + x[1..]
  {}

  /** Two ids name one key exactly when they differ in letter case only. */
  lemma OneKeyPerSpelling(a: Id, b: Id)
    requires KeyOf(a).Some? && KeyOf(b).Some?
    ensures KeyOf(a) == KeyOf(b) <==> LowerCase(a) == LowerCase(b)
  {
    DecodeIgnoresCase(a, b);
  }

  // ---------- what the decoder reads ----------

  /** The sixteen digits. */
  const DIGITS: Octets := [48, 49, 50, 51, 52, 53, 54, 55, 56, 57, 97, 98, 99, 100, 101, 102]

  function HexEncode(b: Octets): (r: Octets)
    ensures |r| == 2 * |b|
  {
    if b == [] then [] else [DIGITS[b[0] / 16], DIGITS[b[0] % 16]] + HexEncode(b[1..])
  }

  lemma DigitsRead(v: nat)
    requires v < 16
    ensures HexValue(DIGITS[v]) == Some(v)
  {}

  /** Reading back what is written in digits. */
  lemma {:induction false} HexRoundTrip(b: Octets)
    ensures HexDecode(HexEncode(b)) == Some(b)
  {
    if b != [] {
      HexRoundTrip(b[1..]);
      PairReads(b[0], HexEncode(b[1..]), b[1..]);
      assert b == [b[0]] + b[1..];
    }
  }

  lemma PairReads(x: Byte, s: Octets, v: Octets)
    requires HexDecode(s) == Some(v)
    ensures HexDecode([DIGITS[x / 16], DIGITS[x % 16]] + s) == Some([x] + v)
  {
    DigitsRead(x / 16);
    DigitsRead(x % 16);
    assert ([DIGITS[x / 16], DIGITS[x % 16]] + s)[2..] == s;
  }

  predicate IsHexDigit(c: Byte) { 48 <= c <= 57 || 65 <= c <= 70 || 97 <= c <= 102 }

  /** An id is a key exactly when it is 64 hexadecimal digits. */
  lemma KeysAreDigits(id: Id)
    ensures KeyOf(id).Some? <==> |id| == 64 && forall i :: 0 <= i < 64 ==> IsHexDigit(id[i])
  {
    DecodesDigits(id);
  }

  lemma {:induction false} DecodesDigits(s: Octets)
    ensures HexDecode(s).Some? <==> |s| % 2 == 0 && forall i :: 0 <= i < |s| ==> IsHexDigit(s[i])
    decreases |s|
  {
    if |s| >= 2 {
      DecodesDigits(s[2..]);
      assert forall i :: 2 <= i < |s| ==> s[i] == s[2..][i - 2];
      assert forall i :: 0 <= i < |s| - 2 ==> s[2..][i] == s[i + 2];
    }
  }

  // ---------- committees ----------

  function Keys(list: seq<Id>): Option<Octets> {
    if list == [] then Some([])
    else
      var n := |list| - 1;
      match (Keys(list[..n]), KeyOf(list[n]))
      case (Some(front), Some(key)) => Some(Join(front, key))
      case _ => None
  }

  function CommitteeHash(trunc: HashFn, list: seq<Id>): Option<Hash> {
    if list == [] then None
    else match Keys(list)
      case None => None
      case Some(raw) => Some(trunc(raw))
  }

  method HashCommittee(trunc: HashFn, list: seq<Id>) returns (r: Option<Hash>)
    ensures r == CommitteeHash(trunc, list)
  {
    if list == [] { return None; }
    var raw: Octets := [];
    for i := 0 to |list|
      invariant Keys(list[..i]) == Some(raw)
    {
      assert list[..i + 1][..i] == list[..i];
      var key := KeyOf(list[i]);
      if key.None? {
        UnreadableKey(list, i);
        return None;
      }
      raw := Join(raw, key.value);
    }
    assert list[..|list|] == list;
    r := Some(trunc(raw));
  }

  lemma {:induction false} UnreadableKey(list: seq<Id>, i: nat)
    requires i < |list| && KeyOf(list[i]).None?
    ensures Keys(list).None?
  {
    var n := |list| - 1;
    if i < n { UnreadableKey(list[..n], i); }
  }

  /** The hashed string lists the keys in order, so it tells committees apart by their keys. */
  lemma {:induction false} KeysTellApart(a: seq<Id>, b: seq<Id>)
    requires Keys(a).Some? && Keys(a) == Keys(b)
    ensures |a| == |b| && forall i :: 0 <= i < |a| ==> KeyOf(a[i]).Some? && KeyOf(a[i]) == KeyOf(b[i])
  {
    KeysSize(a);
    KeysSize(b);
    if a != [] {
      var n := |a| - 1;
      var x, y := Keys(a[..n]).value, Keys(b[..n]).value;
      KeysSize(a[..n]);
      KeysSize(b[..n]);
      assert Join(x, KeyOf(a[n]).value)[..32 * n] == x && Join(y, KeyOf(b[n]).value)[..32 * n] == y;
      assert Join(x, KeyOf(a[n]).value)[32 * n..] == KeyOf(a[n]).value &&
             Join(y, KeyOf(b[n]).value)[32 * n..] == KeyOf(b[n]).value;
      KeysTellApart(a[..n], b[..n]);
      forall i | 0 <= i < |a| ensures KeyOf(a[i]).Some? && KeyOf(a[i]) == KeyOf(b[i]) {
        if i < n { assert a[..n][i] == a[i] && b[..n][i] == b[i]; }
      }
    }
  }

  lemma {:induction false} KeysSize(list: seq<Id>)
    requires Keys(list).Some?
    ensures |Keys(list).value| == 32 * |list|
  {
    if list != [] { KeysSize(list[..|list| - 1]); }
  }

  /** Each key is at its member's place. */
  lemma {:induction false} KeyPlaces(list: seq<Id>, i: nat)
    requires Keys(list).Some? && i < |list|
    ensures 32 * i + 32 <= |Keys(list).value| && Some(Keys(list).value[32 * i..32 * i + 32]) == KeyOf(list[i])
    decreases |list|
  {
    var n := |list| - 1;
    var front := Keys(list[..n]).value;
    KeysSize(list[..n]);
    if i < n {
      KeyPlaces(list[..n], i);
      assert Keys(list).value[32 * i..32 * i + 32] == front[32 * i..32 * i + 32];
    } else {
      assert Join(front, KeyOf(list[n]).value)[32 * n..32 * n + 32] == KeyOf(list[n]).value;
    }
  }

  /** There is a committee digest exactly when every member is a key and there is one. */
  lemma {:induction false} KeysReadable(list: seq<Id>)
    ensures Keys(list).Some? <==> forall i :: 0 <= i < |list| ==> KeyOf(list[i]).Some?
  {
    if list != [] {
      var n := |list| - 1;
      KeysReadable(list[..n]);
      assert forall i :: 0 <= i < n ==> list[..n][i] == list[i];
    }
  }

  /** There is a committee digest exactly when there is a committee of readable keys; it is over the
      keys alone. */
  lemma CommitteeHashExactly(trunc: HashFn, list: seq<Id>, raw: Octets)
    requires |raw| == 32 * |list| && forall i :: 0 <= i < |list| ==> Some(raw[32 * i..32 * i + 32]) == KeyOf(list[i])
    ensures CommitteeHash(trunc, list) == if list == [] then None else Some(trunc(raw))
  {
    KeysReadable(list);
    KeysSize(list);
    var keys := Keys(list).value;
    forall j | 0 <= j < |raw| ensures raw[j] == keys[j] {
      var i := j / 32;
      KeyPlaces(list, i);
      assert raw[j] == raw[32 * i..32 * i + 32][j - 32 * i] && keys[j] == keys[32 * i..32 * i + 32][j - 32 * i];
    }
    assert raw == keys;
  }

  // ---------- the threshold ----------

  const USIZE_MAX: nat := MAX_U64
  const MAX_BALLOTS: nat := 256

  function Threshold(n: nat): (r: nat)
    ensures n > 0 ==> 3 * r >= 2 * n && 3 * (r - 1) < 2 * n
    ensures n == 0 ==> r == MAX_U64
  {
    if n == 0 then USIZE_MAX else (2 * n + 2) / 3
  }

  // ---------- ballots ----------

  datatype SignedBallot = SignedBallot(producerId: Id, signature: Octets)

  datatype BallotFault = Duplicate | NotInCommittee | NotInVoteList | BadKey | BadSignatureBytes | BadSignature

  predicate Signs(suite: Suite, digest: Hash, b: SignedBallot) {
    && KeyOf(b.producerId).Some? && suite.validKey(KeyOf(b.producerId).value)
    && |b.signature| == 64 && suite.validSignature(b.signature)
    && suite.verifies(KeyOf(b.producerId).value, digest, b.signature)
  }

  ghost function Voters(ballots: seq<SignedBallot>): set<Id> { set b | b in ballots :: b.producerId }

  ghost predicate DistinctVoters(ballots: seq<SignedBallot>) {
    forall i, j :: 0 <= i < j < |ballots| ==> ballots[i].producerId != ballots[j].producerId
  }

  /** All ballots are by different members of both lists, and signed. */
  ghost predicate AllValid(suite: Suite, committee: seq<Id>, voteList: seq<Id>, digest: Hash,
                           ballots: seq<SignedBallot>) {
    && DistinctVoters(ballots)
    && forall i :: 0 <= i < |ballots| ==>
         ballots[i].producerId in committee && ballots[i].producerId in voteList && Signs(suite, digest, ballots[i])
  }

  /** What is wrong with ballot `i`, the checks in the order they are made. */
  ghost function FaultAt(suite: Suite, committee: seq<Id>, voteList: seq<Id>, digest: Hash, ballots: seq<SignedBallot>,
                         i: nat): Option<BallotFault>
    requires i < |ballots|
  {
    var b := ballots[i];
    if exists j :: 0 <= j < i && ballots[j].producerId == b.producerId then Some(Duplicate)
    else if b.producerId !in committee then Some(NotInCommittee)
    else if b.producerId !in voteList then Some(NotInVoteList)
    else if KeyOf(b.producerId).None? || !suite.validKey(KeyOf(b.producerId).value) then Some(BadKey)
    else if |b.signature| != 64 || !suite.validSignature(b.signature) then Some(BadSignatureBytes)
    else if !suite.verifies(KeyOf(b.producerId).value, digest, b.signature) then Some(BadSignature)
    else None
  }

  /** What each fault means: the ballot passed the checks before it and fails this one. */
  lemma FaultMeans(suite: Suite, committee: seq<Id>, voteList: seq<Id>, digest: Hash, ballots: seq<SignedBallot>,
                   i: nat)
    requires i < |ballots|
    ensures var b, key := ballots[i], KeyOf(ballots[i].producerId);
            var first := forall j :: 0 <= j < i ==> ballots[j].producerId != b.producerId;
            var member, listed := b.producerId in committee, b.producerId in voteList;
            var keyed := key.Some? && suite.validKey(key.value);
            var readable := |b.signature| == 64 && suite.validSignature(b.signature);
            match FaultAt(suite, committee, voteList, digest, ballots, i)
            case Some(Duplicate) => !first
            case Some(NotInCommittee) => first && !member
            case Some(NotInVoteList) => first && member && !listed
            case Some(BadKey) => first && member && listed && !keyed
            case Some(BadSignatureBytes) => first && member && listed && keyed && !readable
            case Some(BadSignature) =>
              first && member && listed && keyed && readable && !suite.verifies(key.value, digest, b.signature)
            case None =>
              first && member && listed && keyed && readable && suite.verifies(key.value, digest, b.signature)
  {}

  ghost predicate FirstFault(suite: Suite, committee: seq<Id>, voteList: seq<Id>, digest: Hash,
                             ballots: seq<SignedBallot>, i: nat, f: BallotFault) {
    && i < |ballots| && FaultAt(suite, committee, voteList, digest, ballots, i) == Some(f)
    && forall j :: 0 <= j < i ==> FaultAt(suite, committee, voteList, digest, ballots, j) == None
  }

  lemma NoFaults(suite: Suite, committee: seq<Id>, voteList: seq<Id>, digest: Hash, ballots: seq<SignedBallot>)
    ensures AllValid(suite, committee, voteList, digest, ballots) <==>
              forall i :: 0 <= i < |ballots| ==> FaultAt(suite, committee, voteList, digest, ballots, i) == None
  {
    if forall i :: 0 <= i < |ballots| ==> FaultAt(suite, committee, voteList, digest, ballots, i) == None {
      forall i, j | 0 <= i < j < |ballots| ensures ballots[i].producerId != ballots[j].producerId {
        assert FaultAt(suite, committee, voteList, digest, ballots, j) == None;
      }
      forall i | 0 <= i < |ballots|
        ensures ballots[i].producerId in committee && ballots[i].producerId in voteList &&
                  Signs(suite, digest, ballots[i])
      {
        assert FaultAt(suite, committee, voteList, digest, ballots, i) == None;
      }
    }
  }

  /** The loop of both verifiers: it stops at the first ballot with a fault. */
  method CheckBallots(suite: Suite, committee: seq<Id>, voteList: seq<Id>, digest: Hash, ballots: seq<SignedBallot>)
    returns (fault: Option<BallotFault>, valid: nat)
    ensures fault.None? ==> AllValid(suite, committee, voteList, digest, ballots) && valid == |ballots|
    ensures fault.Some? ==> exists i :: FirstFault(suite, committee, voteList, digest, ballots, i, fault.value)
  {
    var seen: set<Id> := {};
    valid := 0;
    for i := 0 to |ballots|
      invariant valid == i
      invariant forall id :: id in seen <==> exists j :: 0 <= j < i && ballots[j].producerId == id
      invariant forall j :: 0 <= j < i ==> FaultAt(suite, committee, voteList, digest, ballots, j) == None
    {
      var b := ballots[i];
      fault := None;
      if b.producerId in seen {
        fault := Some(Duplicate);
      } else if b.producerId !in committee {
        fault := Some(NotInCommittee);
      } else if b.producerId !in voteList {
        fault := Some(NotInVoteList);
      } else {
        var key := KeyOf(b.producerId);
        if key.None? || !suite.validKey(key.value) {
          fault := Some(BadKey);
        } else if |b.signature| != 64 || !suite.validSignature(b.signature) {
          fault := Some(BadSignatureBytes);
        } else if !suite.verifies(key.value, digest, b.signature) {
          fault := Some(BadSignature);
        }
      }
      assert fault == FaultAt(suite, committee, voteList, digest, ballots, i);
      if fault.Some? {
        assert FirstFault(suite, committee, voteList, digest, ballots, i, fault.value);
        return fault, valid;
      }
      seen := seen + {b.producerId};
      valid := valid + 1;
    }
    NoFaults(suite, committee, voteList, digest, ballots);
    fault := None;
  }

  // ---------- quorum intersection ----------

  /** A ballot that counts: by a member of both lists whose id is a valid key, with 64 signature
      bytes that verify over the digest. */
  ghost predicate BallotCounts(suite: Suite, committee: seq<Id>, voteList: seq<Id>, digest: Hash, b: SignedBallot) {
    && b.producerId in committee && b.producerId in voteList
    && |b.signature| == 64 && suite.validSignature(b.signature)
    && exists key :: Some(key) == KeyOf(b.producerId) && suite.validKey(key) && suite.verifies(key, digest, b.signature)
  }

  lemma AllValidExactly(suite: Suite, committee: seq<Id>, voteList: seq<Id>, digest: Hash, ballots: seq<SignedBallot>)
    ensures AllValid(suite, committee, voteList, digest, ballots) <==>
              && |Voters(ballots)| == |ballots|
              && forall b :: b in ballots ==> BallotCounts(suite, committee, voteList, digest, b)
  {
    DistinctExactly(ballots);
    forall i | 0 <= i < |ballots|
      ensures var b := ballots[i];
              BallotCounts(suite, committee, voteList, digest, b) <==>
                b.producerId in committee && b.producerId in voteList && Signs(suite, digest, b)
    {}
  }

  /** As many voters as ballots exactly when nobody voted twice. */
  lemma DistinctExactly(ballots: seq<SignedBallot>)
    ensures |Voters(ballots)| == |ballots| <==> DistinctVoters(ballots)
  {
    if DistinctVoters(ballots) {
      VotersCount(ballots);
    } else {
      var i, j :| 0 <= i < j < |ballots| && ballots[i].producerId == ballots[j].producerId;
      var rest := ballots[..j] + ballots[j + 1..];
      VotersBound(rest);
      forall id | id in Voters(ballots) ensures id in Voters(rest) {
        var k :| 0 <= k < |ballots| && ballots[k].producerId == id;
        var l := if k == j then i else if k < j then k else k - 1;
        assert rest[l].producerId == id;
      }
      Majority.Subset(Voters(ballots), Voters(rest));
    }
  }

  lemma {:induction false} VotersBound(ballots: seq<SignedBallot>)
    ensures |Voters(ballots)| <= |ballots|
  {
    if ballots != [] {
      var n := |ballots| - 1;
      VotersBound(ballots[..n]);
      assert ballots == ballots[..n] + [ballots[n]];
      assert Voters(ballots) == Voters(ballots[..n]) + {ballots[n].producerId};
    }
  }

  lemma {:induction false} VotersCount(ballots: seq<SignedBallot>)
    requires DistinctVoters(ballots)
    ensures |Voters(ballots)| == |ballots|
  {
    if ballots != [] {
      var n := |ballots| - 1;
      VotersCount(ballots[..n]);
      var front := ballots[..n];
      assert ballots == front + [ballots[n]];
      assert Voters(ballots) == Voters(front) + {ballots[n].producerId};
    }
  }

  ghost predicate SignedBoth(suite: Suite, d: Hash, e: Hash, xs: seq<SignedBallot>, ys: seq<SignedBallot>, id: Id) {
    && (exists x :: x in xs && x.producerId == id && Signs(suite, d, x))
    && (exists y :: y in ys && y.producerId == id && Signs(suite, e, y))
  }

  /** The members whose signatures appear on both sides. */
  ghost function DoubleSigners(suite: Suite, d: Hash, e: Hash, xs: seq<SignedBallot>, ys: seq<SignedBallot>): set<Id> {
    set id | id in Voters(xs) * Voters(ys) && SignedBoth(suite, d, e, xs, ys, id)
  }

  lemma VotersSign(suite: Suite, committee: seq<Id>, voteList: seq<Id>, digest: Hash, ballots: seq<SignedBallot>)
    requires AllValid(suite, committee, voteList, digest, ballots)
    ensures Voters(ballots) <= Elements(committee)
    ensures forall id :: id in Voters(ballots) ==>
              exists x :: x in ballots && x.producerId == id && Signs(suite, digest, x)
  {
    forall id | id in Voters(ballots)
      ensures id in Elements(committee) && exists x :: x in ballots && x.producerId == id && Signs(suite, digest, x)
    {
      var x :| x in ballots && x.producerId == id;
      var i :| 0 <= i < |ballots| && ballots[i] == x;
    }
  }

  /** Two sets of valid ballots that each reach two thirds of one committee have at least a
      third of the committee signing both digests. */
  lemma TwoThirdsOverlap(suite: Suite, committee: seq<Id>, v: seq<Id>, w: seq<Id>, d: Hash, e: Hash,
                         xs: seq<SignedBallot>, ys: seq<SignedBallot>)
    requires committee != []
    requires AllValid(suite, committee, v, d, xs) && AllValid(suite, committee, w, e, ys)
    requires |xs| >= Threshold(|committee|) && |ys| >= Threshold(|committee|)
    ensures 3 * |DoubleSigners(suite, d, e, xs, ys)| >= |committee|
    ensures DoubleSigners(suite, d, e, xs, ys) <= Elements(committee)
  {
    VotersSign(suite, committee, v, d, xs);
    VotersSign(suite, committee, w, e, ys);
    VotersCount(xs);
    VotersCount(ys);
    var a, b, all := Voters(xs), Voters(ys), Elements(committee);
    assert DoubleSigners(suite, d, e, xs, ys) == a * b;
    Intersection(a, b, all);
    ElementsCardinality(committee);
  }

  lemma Intersection<T>(a: set<T>, b: set<T>, all: set<T>)
    requires a <= all && b <= all
    ensures |a * b| >= |a| + |b| - |all|
  {
    Majority.Subset(a + b, all);
    assert a + b == a + (b - a) && a !! (b - a);
    assert b == (a * b) + (b - a) && (a * b) !! (b - a);
  }
}
