/** One producer's step of each phase, as a function of the envelopes it heard. */
module Steps {
  import opened Binary
  import opened Ledger
  import opened Phases
  import opened Network
  import opened Collectors

  /** The producer's own message joins the collected ones last, replacing any in its name. */
  ghost function CampaignHeard(env: Env, p: Producer, own: Quantity, heard: seq<Envelope>,
                               now: U64): (Outcome<Candidate>, Producer) {
    Campaign(env, p, Collected(QuantityReader(), p.cycle, heard)[own.producerId := own], Required(p), now)
  }

  ghost function VoteHeard(env: Env, p: Producer, own: Candidate, heard: seq<Envelope>,
                           now: U64): (Outcome<Vote>, Producer) {
    CastVote(env, p, Collected(CandidateReader(), p.cycle, heard)[own.producerId := own], Required(p), now)
  }

  ghost function SynchronizeHeard(env: Env, p: Producer, own: Vote, heard: seq<Envelope>, now: U64): Outcome<Output> {
    Synchronize(env, p, Collected(VoteReader(), p.cycle, heard)[own.producerId := own], Required(p), now)
  }

  /** What the three collectors read: whatever was already buffered of their kind, then what
      arrives before their deadline. */
  ghost function Windows(q: seq<Envelope>, inbound: (Inbound, Inbound, Inbound))
    : (seq<Envelope>, seq<Envelope>, seq<Envelope>)
  {
    var q1 := Left(q, QuantityKind, inbound.0);
    var q2 := Left(q1, CandidateKind, inbound.1);
    (Window(q, QuantityKind, inbound.0), Window(q1, CandidateKind, inbound.1), Window(q2, VoteKind, inbound.2))
  }

  /** Unless more than ten thousand envelopes arrive in a cycle, each phase reads every message of
      its kind that arrived before its deadline, however early. */
  lemma WindowsMissNothing(q: seq<Envelope>, a: seq<Envelope>, b: seq<Envelope>, c: seq<Envelope>, cycle: U64)
    requires |q| + |a| + |b| + |c| <= 10_000
    ensures var w := Windows(q, (Yields(a), Yields(b), Yields(c)));
            && Collected(QuantityReader(), cycle, w.0) == Collected(QuantityReader(), cycle, q + a)
            && Collected(CandidateReader(), cycle, w.1) == Collected(CandidateReader(), cycle, q + a + b)
            && Collected(VoteReader(), cycle, w.2) == Collected(VoteReader(), cycle, q + a + b + c)
  {
    var q1 := Left(q, QuantityKind, Yields(a));
    var q2 := Left(q1, CandidateKind, Yields(b));
    WindowHearsAll(QuantityReader(), cycle, q, a);
    WindowHearsAll(CandidateReader(), cycle, q1, b);
    WindowHearsAll(VoteReader(), cycle, q2, c);
    LeftForOthers(CandidateReader(), cycle, q, QuantityKind, a);
    LeftForOthers(VoteReader(), cycle, q, QuantityKind, a);
    LeftForOthers(VoteReader(), cycle, q1, CandidateKind, b);
    HeardConcat(CandidateReader(), cycle, q1, b);
    HeardConcat(CandidateReader(), cycle, q + a, b);
    HeardConcat(VoteReader(), cycle, q1, b);
    HeardConcat(VoteReader(), cycle, q + a, b);
    HeardConcat(VoteReader(), cycle, q2, c);
    HeardConcat(VoteReader(), cycle, q + a + b, c);
  }

  /** The whole cycle of one producer: what it heard in each collection window decides the
      update it returns, or the error it stops with. */
  ghost function RunCycle(
    env: Env, p: Producer, batch: seq<TransactionEntry>,
    heard: (seq<Envelope>, seq<Envelope>, seq<Envelope>), now: (U64, U64, U64, U64)): Outcome<Option<LedgerUpdate>>
  {
    var (quantity, p1) := Construct(env, p, batch, now.0);
    match CampaignHeard(env, p1, quantity, heard.0, now.1)
    case (Err(e), _) => Err(e)
    case (Ok(candidate), p2) =>
      match VoteHeard(env, p2, candidate, heard.1, now.2)
      case (Err(e), _) => Err(e)
      case (Ok(vote), p3) =>
        match SynchronizeHeard(env, p3, vote, heard.2, now.3)
        case Err(e) => Err(e)
        case Ok(_) => Ok(p3.ledgerUpdate)
  }
}
