/** Certificates that two thirds of the committee reached one state root (ADR 0002). */
module StateRoot {
  import opened Binary
  import opened Sorting
  import opened Merkle
  import opened Ledger
  import opened Certificates
  import Finality

  datatype Certificate = Certificate(
    version: U8, chainId: U64, genesis: Hash, cycle: U64,
    lsuHash: Hash, stateRoot: Hash, committeeHash: Hash, attestations: seq<SignedBallot>)

  datatype VerifyError =
    | BadFormat | TooManyAttestations | EmptyCommittee | LsuHashMismatch | CommitteeHashMismatch
    | Attestation(fault: BallotFault) | InsufficientQuorum

  datatype Verdict = Verified | Rejected(error: VerifyError)

  /** "CATALYST_LSUROOT". */
  const DOMAIN: Octets := [67, 65, 84, 65, 76, 89, 83, 84, 95, 76, 83, 85, 82, 79, 79, 84]

  function Preimage(cert: Certificate): Octets {
    Finality.Layout(DOMAIN, cert.chainId, cert.genesis, cert.cycle, cert.lsuHash, cert.committeeHash, cert.stateRoot)
  }

  /** The signed bytes determine everything the certificate says, its chain included. */
  lemma PreimageInjective(x: Certificate, y: Certificate)
    requires Preimage(x) == Preimage(y)
    ensures x.chainId == y.chainId && x.genesis == y.genesis && x.cycle == y.cycle
    ensures x.lsuHash == y.lsuHash && x.committeeHash == y.committeeHash && x.stateRoot == y.stateRoot
  {
    Finality.LayoutInjective(DOMAIN, x.chainId, x.genesis, x.cycle, x.lsuHash, x.committeeHash, x.stateRoot,
                             DOMAIN, y.chainId, y.genesis, y.cycle, y.lsuHash, y.committeeHash, y.stateRoot);
  }

  function Digest(suite: Suite, cert: Certificate): Hash { suite.trunc(Preimage(cert)) }

  /** A digest is of one chain and one root. */
  lemma ChainsSeparate(suite: Suite, x: Certificate, y: Certificate)
    requires x.chainId != y.chainId || x.genesis != y.genesis || x.stateRoot != y.stateRoot
    requires CollisionFree(suite.trunc, {Preimage(x), Preimage(y)})
    ensures Digest(suite, x) != Digest(suite, y)
  {
    if Preimage(x) == Preimage(y) { PreimageInjective(x, y); }
  }

  /** A signature for one kind of certificate is over a string the other kind never hashes. */
  lemma DomainsSeparate(cert: Certificate, other: Finality.Certificate)
    ensures Preimage(cert) != Finality.Preimage(other)
  {
    assert DOMAIN[12] != Finality.DOMAIN[12];
    if Preimage(cert) == Finality.Preimage(other) {
      Finality.LayoutInjective(DOMAIN, cert.chainId, cert.genesis, cert.cycle, cert.lsuHash, cert.committeeHash,
                               cert.stateRoot,
                               Finality.DOMAIN, other.chainId, other.genesis, other.cycle, other.lsuHash,
                               other.committeeHash, other.voteListHash);
    }
  }

  method FromLsuAndAttestations(suite: Suite, lsu: LedgerUpdate, chainId: U64, genesis: Hash, lsuHash: Hash,
                                stateRoot: Hash, attestations: seq<SignedBallot>)
    returns (r: Option<Certificate>)
    ensures r.None? <==> CommitteeHash(suite.trunc, lsu.producerList).None?
    ensures r.Some? ==>
              Bound(suite, r.value, lsu, lsuHash) && r.value.stateRoot == stateRoot && r.value.chainId == chainId &&
                        r.value.genesis == genesis && r.value.attestations == attestations
  {
    var committee := HashCommittee(suite.trunc, lsu.producerList);
    if committee.None? { return None; }
    r := Some(Certificate(1, chainId, genesis, lsu.cycle, lsuHash, stateRoot, committee.value, attestations));
  }

  ghost predicate Bound(suite: Suite, cert: Certificate, lsu: LedgerUpdate, lsuHash: Hash) {
    && cert.version == 1 && cert.lsuHash == lsuHash && cert.cycle == lsu.cycle
    && CommitteeHash(suite.trunc, lsu.producerList) == Some(cert.committeeHash)
  }

  ghost predicate Certifies(suite: Suite, cert: Certificate, lsu: LedgerUpdate) {
    && Bound(suite, cert, lsu, suite.hash(EncUpdate(lsu)))
    && AllValid(suite, lsu.producerList, lsu.producerList, Digest(suite, cert), cert.attestations)
    && Threshold(|lsu.producerList|) <= |cert.attestations| <= MAX_BALLOTS
  }

  /** A certificate verifies exactly when it is of version 1, names the update's hash, cycle and
      committee, and carries at most 256 attestations that are signed, over bytes that name this
      very certificate, by distinct members making two thirds of the committee. */
  lemma CertifiesExactly(suite: Suite, cert: Certificate, lsu: LedgerUpdate)
    ensures Certifies(suite, cert, lsu) <==>
              && cert.version == 1 && cert.cycle == lsu.cycle && cert.lsuHash == suite.hash(EncUpdate(lsu))
              && CommitteeHash(suite.trunc, lsu.producerList) == Some(cert.committeeHash)
              && 3 * |Voters(cert.attestations)| >= 2 * |lsu.producerList|
              && |Voters(cert.attestations)| == |cert.attestations| <= 256
              && forall b :: b in cert.attestations ==>
                   BallotCounts(suite, lsu.producerList, lsu.producerList, suite.trunc(Preimage(cert)), b)
  {
    AllValidExactly(suite, lsu.producerList, lsu.producerList, suite.trunc(Preimage(cert)), cert.attestations);
  }

  /** Why a certificate is rejected: the first check that fails, all before it having passed. */
  ghost predicate Blames(suite: Suite, cert: Certificate, lsu: LedgerUpdate, e: VerifyError) {
    var format, few := cert.version == 1, |cert.attestations| <= 256;
    var named := cert.lsuHash == suite.hash(EncUpdate(lsu)) && cert.cycle == lsu.cycle;
    var committee := CommitteeHash(suite.trunc, lsu.producerList);
    match e
    case BadFormat => !format
    case TooManyAttestations => format && !few
    case LsuHashMismatch => format && few && !named
    case EmptyCommittee => format && few && named && committee.None?
    case CommitteeHashMismatch => format && few && named && committee.Some? && committee.value != cert.committeeHash
    case Attestation(fault) =>
      && Bound(suite, cert, lsu, suite.hash(EncUpdate(lsu))) && few && fault != NotInVoteList
      && exists i :: FirstFault(suite, lsu.producerList, lsu.producerList, Digest(suite, cert), cert.attestations,
                                i, fault)
    case InsufficientQuorum =>
      && Bound(suite, cert, lsu, suite.hash(EncUpdate(lsu))) && few
      && AllValid(suite, lsu.producerList, lsu.producerList, Digest(suite, cert), cert.attestations)
      && 3 * |cert.attestations| < 2 * |lsu.producerList|
  }

  method CheckBinding(suite: Suite, cert: Certificate, lsu: LedgerUpdate) returns (e: Option<VerifyError>)
    ensures e.None? <==> Bound(suite, cert, lsu, suite.hash(EncUpdate(lsu))) && |cert.attestations| <= MAX_BALLOTS
    ensures e.Some? ==> Blames(suite, cert, lsu, e.value)
  {
    if cert.version != 1 { return Some(BadFormat); }
    if |cert.attestations| > MAX_BALLOTS { return Some(TooManyAttestations); }
    if suite.hash(EncUpdate(lsu)) != cert.lsuHash || lsu.cycle != cert.cycle { return Some(LsuHashMismatch); }
    var committee := HashCommittee(suite.trunc, lsu.producerList);
    if committee.None? { return Some(EmptyCommittee); }
    if committee.value != cert.committeeHash { return Some(CommitteeHashMismatch); }
    e := None;
  }

  /** There is no vote list here: membership in the committee is checked once. */
  method Verify(suite: Suite, cert: Certificate, lsu: LedgerUpdate) returns (r: Verdict)
    ensures r == Verified <==> Certifies(suite, cert, lsu)
    ensures r.Rejected? ==> Blames(suite, cert, lsu, r.error)
  {
    var mismatch := CheckBinding(suite, cert, lsu);
    if mismatch.Some? { return Rejected(mismatch.value); }
    var fault, valid := CheckBallots(suite, lsu.producerList, lsu.producerList, Digest(suite, cert), cert.attestations);
    if fault.Some? {
      NoVoteListFault(suite, lsu.producerList, Digest(suite, cert), cert.attestations, fault.value);
      Finality.FaultMeansInvalid(suite, lsu.producerList, lsu.producerList, Digest(suite, cert), cert.attestations,
                                 fault.value);
      return Rejected(Attestation(fault.value));
    }
    if valid < Threshold(|lsu.producerList|) { return Rejected(InsufficientQuorum); }
    r := Verified;
  }

  lemma NoVoteListFault(suite: Suite, committee: seq<Id>, digest: Hash, ballots: seq<SignedBallot>, f: BallotFault)
    requires exists i :: FirstFault(suite, committee, committee, digest, ballots, i, f)
    ensures f != NotInVoteList
  {}

  /** Two certified roots of one update: at least a third of its committee attested to both. */
  lemma ConflictNeedsDoubleSigners(suite: Suite, x: Certificate, y: Certificate, lsu: LedgerUpdate)
    requires Certifies(suite, x, lsu) && Certifies(suite, y, lsu) && x.stateRoot != y.stateRoot
    requires CollisionFree(suite.trunc, {Preimage(x), Preimage(y)})
    ensures Digest(suite, x) != Digest(suite, y)
    ensures var double := DoubleSigners(suite, Digest(suite, x), Digest(suite, y), x.attestations, y.attestations);
            3 * |double| >= |lsu.producerList| && double <= Elements(lsu.producerList)
  {
    if Preimage(x) == Preimage(y) {
      Finality.LayoutInjective(DOMAIN, x.chainId, x.genesis, x.cycle, x.lsuHash, x.committeeHash, x.stateRoot,
                               DOMAIN, y.chainId, y.genesis, y.cycle, y.lsuHash, y.committeeHash, y.stateRoot);
    }
    TwoThirdsOverlap(suite, lsu.producerList, lsu.producerList, lsu.producerList, Digest(suite, x), Digest(suite, y),
                     x.attestations, y.attestations);
  }

  lemma CommitteeCap(suite: Suite, cert: Certificate, lsu: LedgerUpdate)
    requires Certifies(suite, cert, lsu)
    ensures 0 < |lsu.producerList| <= 384
  {}
}
