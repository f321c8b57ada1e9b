/** Certificates that two thirds of the committee finalized a ledger update (ADR 0001). */
module Finality {
  import opened Binary
  import opened Sorting
  import opened Merkle
  import opened Witness
  import opened Ledger
  import opened Certificates
  import Codec

  datatype Certificate = Certificate(
    version: U8, style: U8, chainId: U64, genesis: Hash, cycle: U64,
    lsuHash: Hash, committeeHash: Hash, voteListHash: Hash, votes: seq<SignedBallot>)

  datatype VerifyError =
    | BadFormat | TooManyVotes | EmptyCommittee | LsuHashMismatch | CommitteeHashMismatch | VoteListHashMismatch
    | Ballot(fault: BallotFault) | InsufficientQuorum

  datatype Verdict = Verified | Rejected(error: VerifyError)

  // ---------- the signed digest ----------

  /** "CATALYST_LSUFC" padded with zeros to sixteen bytes. */
  const DOMAIN: Octets := [67, 65, 84, 65, 76, 89, 83, 84, 95, 76, 83, 85, 70, 67, 0, 0]

  /** The fixed layout shared by both certificate digests, 161 bytes long. */
  function Layout(domain: Octets, chainId: U64, genesis: Hash, cycle: U64, lsuHash: Hash, committeeHash: Hash,
                  last: Hash): Octets {
    Join(domain,
         Join([1], Join(U64Bytes(chainId),
                        Join(genesis, Join(U64Bytes(cycle), Join(lsuHash, Join(committeeHash, last)))))))
  }

  lemma JoinInjective(a: Octets, x: Octets, b: Octets, y: Octets)
    requires |a| == |b| && Join(a, x) == Join(b, y)
    ensures a == b && x == y
  {
    assert Join(a, x)[..|a|] == a && Join(b, y)[..|b|] == b;
    assert Join(a, x)[|a|..] == x && Join(b, y)[|b|..] == y;
  }

  /** No two settings of the fields share a layout; domains of equal length are told apart. */
  lemma LayoutInjective(d: Octets, c: U64, g: Hash, y: U64, l: Hash, m: Hash, v: Hash,
                        d': Octets, c': U64, g': Hash, y': U64, l': Hash, m': Hash, v': Hash)
    requires |d| == |d'|
    requires Layout(d, c, g, y, l, m, v) == Layout(d', c', g', y', l', m', v')
    ensures d == d' && c == c' && g == g' && y == y' && l == l' && m == m' && v == v'
  {
    var t1, t1' := Join(m, v), Join(m', v');
    var t2, t2' := Join(l, t1), Join(l', t1');
    var t3, t3' := Join(U64Bytes(y), t2), Join(U64Bytes(y'), t2');
    var t4, t4' := Join(g, t3), Join(g', t3');
    var t5, t5' := Join(U64Bytes(c), t4), Join(U64Bytes(c'), t4');
    JoinInjective(d, Join([1], t5), d', Join([1], t5'));
    JoinInjective([1], t5, [1], t5');
    JoinInjective(U64Bytes(c), t4, U64Bytes(c'), t4');
    JoinInjective(g, t3, g', t3');
    JoinInjective(U64Bytes(y), t2, U64Bytes(y'), t2');
    JoinInjective(l, t1, l', t1');
    JoinInjective(m, v, m', v');
    U64BytesInjective(c, c');
    U64BytesInjective(y, y');
  }

  function Preimage(cert: Certificate): Octets {
    Layout(DOMAIN, cert.chainId, cert.genesis, cert.cycle, cert.lsuHash, cert.committeeHash, cert.voteListHash)
  }

  /** The signed bytes determine everything the certificate says, its chain included. */
  lemma PreimageInjective(x: Certificate, y: Certificate)
    requires Preimage(x) == Preimage(y)
    ensures x.chainId == y.chainId && x.genesis == y.genesis && x.cycle == y.cycle
    ensures x.lsuHash == y.lsuHash && x.committeeHash == y.committeeHash && x.voteListHash == y.voteListHash
  {
    LayoutInjective(DOMAIN, x.chainId, x.genesis, x.cycle, x.lsuHash, x.committeeHash, x.voteListHash,
                    DOMAIN, y.chainId, y.genesis, y.cycle, y.lsuHash, y.committeeHash, y.voteListHash);
  }

  /** The bytes of `a` start at `lo`. */
  ghost predicate At(b: Octets, lo: nat, a: Octets) { lo + |a| <= |b| && b[lo..lo + |a|] == a }

  /** From `lo` on the bytes are those of `a` and then `rest`. */
  ghost predicate From(b: Octets, lo: nat, a: Octets, rest: Octets) { lo <= |b| && b[lo..] == Join(a, rest) }

  lemma Peel(b: Octets, lo: nat, a: Octets, rest: Octets)
    requires From(b, lo, a, rest)
    ensures At(b, lo, a) && lo + |a| <= |b| && b[lo + |a|..] == rest
  {
    assert b[lo..][..|a|] == a && b[lo..][|a|..] == rest;
  }

  /** Where each field lies in the signed bytes. */
  lemma LayoutPositions(d: Octets, chainId: U64, genesis: Hash, cycle: U64, lsuHash: Hash, committee: Hash, last: Hash)
    requires |d| == 16
    ensures var b := Layout(d, chainId, genesis, cycle, lsuHash, committee, last);
            && At(b, 0, d) && At(b, 16, [1]) && At(b, 17, U64Bytes(chainId)) && At(b, 25, genesis)
            && At(b, 57, U64Bytes(cycle)) && At(b, 65, lsuHash) && At(b, 97, committee)
            && At(b, 129, last) && |b| == 161
  {
    var b := Layout(d, chainId, genesis, cycle, lsuHash, committee, last);
    var t1 := Join(committee, last);
    var t2 := Join(lsuHash, t1);
    var t3 := Join(U64Bytes(cycle), t2);
    var t4 := Join(genesis, t3);
    var t5 := Join(U64Bytes(chainId), t4);
    assert From(b, 0, d, Join([1], t5)) by { assert b[0..] == b; }
    Peel(b, 0, d, Join([1], t5));
    Peel(b, 16, [1], t5);
    Peel(b, 17, U64Bytes(chainId), t4);
    Peel(b, 25, genesis, t3);
    Peel(b, 57, U64Bytes(cycle), t2);
    Peel(b, 65, lsuHash, t1);
    Peel(b, 97, committee, last);
    assert last == b[129..];
  }

  function Digest(suite: Suite, cert: Certificate): Hash { suite.trunc(Preimage(cert)) }

  /** A digest is of one chain: no signature made for one chain is checked on another. */
  lemma ChainsSeparate(suite: Suite, x: Certificate, y: Certificate)
    requires x.chainId != y.chainId || x.genesis != y.genesis
    requires CollisionFree(suite.trunc, {Preimage(x), Preimage(y)})
    ensures Digest(suite, x) != Digest(suite, y)
  {
    if Preimage(x) == Preimage(y) { PreimageInjective(x, y); }
  }

  // ---------- building and verifying ----------

  const STYLE_INDIVIDUAL: U8 := 1

  method FromLsuAndVotes(suite: Suite, lsu: LedgerUpdate, chainId: U64, genesis: Hash, lsuHash: Hash,
                         votes: seq<SignedBallot>)
    returns (r: Option<Certificate>)
    ensures r.None? <==> CommitteeHash(suite.trunc, lsu.producerList).None?
    ensures r.Some? ==>
              Bound(suite, r.value, lsu, lsuHash) && r.value.chainId == chainId && r.value.genesis == genesis &&
              r.value.votes == votes
  {
    var committee := HashCommittee(suite.trunc, lsu.producerList);
    if committee.None? { return None; }
    var list := HashProducerList(suite.hash, lsu.voteList);
    r := Some(Certificate(1, STYLE_INDIVIDUAL, chainId, genesis, lsu.cycle, lsuHash, committee.value, list, votes));
  }

  /** The certificate speaks of this update under the given hash. */
  ghost predicate Bound(suite: Suite, cert: Certificate, lsu: LedgerUpdate, lsuHash: Hash) {
    && cert.version == 1 && cert.style == STYLE_INDIVIDUAL
    && cert.lsuHash == lsuHash && cert.cycle == lsu.cycle
    && CommitteeHash(suite.trunc, lsu.producerList) == Some(cert.committeeHash)
    && ListWitness(suite.hash, lsu.voteList) == cert.voteListHash
  }

  /** What a verified certificate means. */
  ghost predicate Certifies(suite: Suite, cert: Certificate, lsu: LedgerUpdate) {
    && Bound(suite, cert, lsu, suite.hash(EncUpdate(lsu)))
    && AllValid(suite, lsu.producerList, lsu.voteList, Digest(suite, cert), cert.votes)
    && Threshold(|lsu.producerList|) <= |cert.votes| <= MAX_BALLOTS
  }

  /** Why a certificate is rejected: the first check that fails, all before it having passed. */
  ghost predicate Blames(suite: Suite, cert: Certificate, lsu: LedgerUpdate, e: VerifyError) {
    var format, few := cert.version == 1 && cert.style == 1, |cert.votes| <= 256;
    var named := cert.lsuHash == suite.hash(EncUpdate(lsu)) && cert.cycle == lsu.cycle;
    var committee := CommitteeHash(suite.trunc, lsu.producerList);
    match e
    case BadFormat => !format
    case TooManyVotes => format && !few
    case LsuHashMismatch => format && few && !named
    case EmptyCommittee => format && few && named && committee.None?
    case CommitteeHashMismatch => format && few && named && committee.Some? && committee.value != cert.committeeHash
    case VoteListHashMismatch =>
      format && few && named && committee == Some(cert.committeeHash) &&
      cert.voteListHash != ListWitness(suite.hash, lsu.voteList)
    case Ballot(fault) =>
      && Bound(suite, cert, lsu, suite.hash(EncUpdate(lsu))) && few
      && exists i :: FirstFault(suite, lsu.producerList, lsu.voteList, Digest(suite, cert), cert.votes, i, fault)
    case InsufficientQuorum =>
      && Bound(suite, cert, lsu, suite.hash(EncUpdate(lsu))) && few
      && AllValid(suite, lsu.producerList, lsu.voteList, Digest(suite, cert), cert.votes)
      && 3 * |cert.votes| < 2 * |lsu.producerList|
  }

  method CheckBinding(suite: Suite, cert: Certificate, lsu: LedgerUpdate) returns (e: Option<VerifyError>)
    ensures e.None? <==> Bound(suite, cert, lsu, suite.hash(EncUpdate(lsu))) && |cert.votes| <= MAX_BALLOTS
    ensures e.Some? ==> Blames(suite, cert, lsu, e.value)
  {
    if cert.version != 1 || cert.style != STYLE_INDIVIDUAL { return Some(BadFormat); }
    if |cert.votes| > MAX_BALLOTS { return Some(TooManyVotes); }
    if suite.hash(EncUpdate(lsu)) != cert.lsuHash || lsu.cycle != cert.cycle { return Some(LsuHashMismatch); }
    var committee := HashCommittee(suite.trunc, lsu.producerList);
    if committee.None? { return Some(EmptyCommittee); }
    if committee.value != cert.committeeHash { return Some(CommitteeHashMismatch); }
    var list := HashProducerList(suite.hash, lsu.voteList);
    if list != cert.voteListHash { return Some(VoteListHashMismatch); }
    e := None;
  }

  method Verify(suite: Suite, cert: Certificate, lsu: LedgerUpdate) returns (r: Verdict)
    ensures r == Verified <==> Certifies(suite, cert, lsu)
    ensures r.Rejected? ==> Blames(suite, cert, lsu, r.error)
  {
    var mismatch := CheckBinding(suite, cert, lsu);
    if mismatch.Some? { return Rejected(mismatch.value); }
    var fault, valid := CheckBallots(suite, lsu.producerList, lsu.voteList, Digest(suite, cert), cert.votes);
    if fault.Some? {
      FaultMeansInvalid(suite, lsu.producerList, lsu.voteList, Digest(suite, cert), cert.votes, fault.value);
      return Rejected(Ballot(fault.value));
    }
    if valid < Threshold(|lsu.producerList|) { return Rejected(InsufficientQuorum); }
    r := Verified;
  }

  lemma FaultMeansInvalid(suite: Suite, committee: seq<Id>, voteList: seq<Id>, digest: Hash, ballots: seq<SignedBallot>,
                          f: BallotFault)
    requires exists i :: FirstFault(suite, committee, voteList, digest, ballots, i, f)
    ensures !AllValid(suite, committee, voteList, digest, ballots)
  {
    NoFaults(suite, committee, voteList, digest, ballots);
    var i :| FirstFault(suite, committee, voteList, digest, ballots, i, f);
    assert FaultAt(suite, committee, voteList, digest, ballots, i) != None;
  }

  // ---------- consequences ----------

  /** The cap on votes leaves committees of more than 384 without certificates. */
  lemma CommitteeCap(suite: Suite, cert: Certificate, lsu: LedgerUpdate)
    requires Certifies(suite, cert, lsu)
    ensures 0 < |lsu.producerList| <= 384
  {}

  /** A certificate verifies exactly when it is of version 1, names the update's hash, cycle,
      committee and vote list, and carries at most 256 ballots that are signed, over bytes that name
      this very certificate, by distinct voters making two thirds of the committee. */
  lemma CertifiesExactly(suite: Suite, cert: Certificate, lsu: LedgerUpdate)
    ensures Certifies(suite, cert, lsu) <==>
              && cert.version == 1 && cert.style == 1 && cert.cycle == lsu.cycle
              && cert.lsuHash == suite.hash(EncUpdate(lsu))
              && CommitteeHash(suite.trunc, lsu.producerList) == Some(cert.committeeHash)
              && cert.voteListHash == ListWitness(suite.hash, lsu.voteList)
              && 3 * |Voters(cert.votes)| >= 2 * |lsu.producerList| && |Voters(cert.votes)| == |cert.votes| <= 256
              && forall b :: b in cert.votes ==>
                   BallotCounts(suite, lsu.producerList, lsu.voteList, suite.trunc(Preimage(cert)), b)
  {
    AllValidExactly(suite, lsu.producerList, lsu.voteList, suite.trunc(Preimage(cert)), cert.votes);
  }

  /** Nothing a certificate says about its update can be changed and still verify. */
  lemma BindingFixed(suite: Suite, x: Certificate, y: Certificate, lsu: LedgerUpdate)
    requires Certifies(suite, x, lsu) && Certifies(suite, y, lsu)
    ensures x == y.(chainId := x.chainId, genesis := x.genesis, votes := x.votes)
    ensures x.version == 1 && x.style == 1 && x.cycle == lsu.cycle && x.lsuHash == suite.hash(EncUpdate(lsu))
  {}

  /** A certificate certifies one update only. */
  lemma CertifiesOneUpdate(suite: Suite, cert: Certificate, lsu: LedgerUpdate, other: LedgerUpdate)
    requires Certifies(suite, cert, lsu) && Certifies(suite, cert, other)
    requires CollisionFree(suite.hash, {EncUpdate(lsu), EncUpdate(other)})
    requires UpdateFits(Codec.FIELD, lsu) && UpdateFits(Codec.FIELD, other)
    ensures lsu == other
  {
    UpdateBytesInjective(lsu, other);
  }

  /** Conflicting certificates over one committee: at least a third of it signed two digests. */
  lemma ConflictNeedsDoubleSigners(suite: Suite, x: Certificate, lsu: LedgerUpdate, y: Certificate, other: LedgerUpdate)
    requires Certifies(suite, x, lsu) && Certifies(suite, y, other) && lsu.producerList == other.producerList
    requires x.lsuHash != y.lsuHash
    requires CollisionFree(suite.trunc, {Preimage(x), Preimage(y)})
    ensures Digest(suite, x) != Digest(suite, y)
    ensures var double := DoubleSigners(suite, Digest(suite, x), Digest(suite, y), x.votes, y.votes);
            3 * |double| >= |lsu.producerList| && double <= Elements(lsu.producerList)
  {
    if Preimage(x) == Preimage(y) {
      LayoutInjective(DOMAIN, x.chainId, x.genesis, x.cycle, x.lsuHash, x.committeeHash, x.voteListHash,
                      DOMAIN, y.chainId, y.genesis, y.cycle, y.lsuHash, y.committeeHash, y.voteListHash);
    }
    TwoThirdsOverlap(suite, lsu.producerList, lsu.voteList, other.voteList, Digest(suite, x), Digest(suite, y), x.votes,
                     y.votes);
  }

  /** So with fewer than a third double-signing, certificates over one committee never conflict. */
  lemma NoConflict(suite: Suite, x: Certificate, lsu: LedgerUpdate, y: Certificate, other: LedgerUpdate)
    requires Certifies(suite, x, lsu) && Certifies(suite, y, other) && lsu.producerList == other.producerList
    requires CollisionFree(suite.trunc, {Preimage(x), Preimage(y)})
    requires CollisionFree(suite.hash, {EncUpdate(lsu), EncUpdate(other)})
    requires UpdateFits(Codec.FIELD, lsu) && UpdateFits(Codec.FIELD, other)
    requires 3 * |DoubleSigners(suite, Digest(suite, x), Digest(suite, y), x.votes, y.votes)| < |lsu.producerList|
    ensures lsu == other
  {
    if x.lsuHash != y.lsuHash { ConflictNeedsDoubleSigners(suite, x, lsu, y, other); }
    UpdateBytesInjective(lsu, other);
  }
}
