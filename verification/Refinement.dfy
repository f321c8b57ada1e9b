/** One producer's engine run is one producer's part of a network run. */
module Refinement {
  import opened Binary
  import opened Ledger
  import opened Phases
  import opened Network
  import opened Steps
  import opened Protocol
  import opened Progress

  /** Others may have acted in between, but this producer has not. */
  ghost predicate SameNode(t: System, u: System, id: Id) {
    id in t.nodes && id in u.nodes && u.nodes[id] == t.nodes[id]
  }

  lemma Campaigns(cfg: Config, u: System, id: Id, p: Producer, q: Quantity, heard: seq<Envelope>, now: U64)
    requires id in u.nodes && u.nodes[id] == Node(p, Constructed(q)) && Delivered(u.sent, heard)
    ensures var t, r := Step(cfg, u, Campaigning(id, heard, now)), CampaignHeard(cfg.env, p, q, heard, now);
            id in t.nodes && t.nodes[id] == Node(r.1, if r.0.Ok? then Campaigned(r.0.value) else Idle)
  {}

  lemma Votes(cfg: Config, u: System, id: Id, p: Producer, c: Candidate, heard: seq<Envelope>, now: U64)
    requires id in u.nodes && u.nodes[id] == Node(p, Campaigned(c)) && Delivered(u.sent, heard)
    ensures var t, r := Step(cfg, u, Voting(id, heard, now)), VoteHeard(cfg.env, p, c, heard, now);
            id in t.nodes && t.nodes[id] == Node(r.1, if r.0.Ok? then Voted(r.0.value) else Idle)
  {}

  lemma Synchronizes(cfg: Config, u: System, id: Id, p: Producer, v: Vote, heard: seq<Envelope>, now: U64)
    requires id in u.nodes && u.nodes[id] == Node(p, Voted(v))
    ensures var r := SynchronizeHeard(cfg.env, p, v, heard, now);
            SynchronizeStep(cfg, u, id, heard, now).finished ==
              u.finished + if r.Ok? && p.ledgerUpdate.Some? then {Result(p.id, p.cycle, p.ledgerUpdate.value)} else {}
  {
    match SynchronizeHeard(cfg.env, p, v, heard, now)
    case Err(_) =>
    case Ok(_) =>
  }

  lemma IdleStays(cfg: Config, u: System, id: Id, a: Action)
    requires id in u.nodes && u.nodes[id].stage == Idle
    requires a.Campaigning? || a.Voting? || a.Synchronizing?
    requires a.id == id
    ensures Step(cfg, u, a) == u
  {}

  lemma Starts(cfg: Config, s: System, a: Action)
    requires a.Start? && a.id in cfg.committee(a.cycle) && a.id !in cfg.faulty && (a.id, a.cycle) !in s.started
    ensures var t := Step(cfg, s, a);
            var p := ResetForCycle(NodeAt(s, a.id, a.key).producer, a.cycle, cfg.committee(a.cycle));
            var (q, next) := Construct(cfg.env, p, a.batch, a.now);
            a.id in t.nodes && t.nodes[a.id] == Node(next, Constructed(q))
  {}

  lemma PhasesKeepCycle(env: Env, p: Producer, own: Candidate, heard: seq<Envelope>, now: U64)
    ensures VoteHeard(env, p, own, heard, now).1.cycle == p.cycle && VoteHeard(env, p, own, heard, now).1.id == p.id
  {}

  /** The update a producer that has campaigned goes on to return, if any. */
  ghost function Returned(env: Env, p: Producer, c: Candidate, heard: (seq<Envelope>, seq<Envelope>),
                          now: (U64, U64)): Option<LedgerUpdate> {
    match VoteHeard(env, p, c, heard.0, now.0)
    case (Err(_), _) => None
    case (Ok(v), next) => if SynchronizeHeard(env, next, v, heard.1, now.1).Ok? then next.ledgerUpdate else None
  }

  ghost function ResultSet(p: Producer, lsu: Option<LedgerUpdate>): set<Result> {
    if lsu.Some? then {Result(p.id, p.cycle, lsu.value)} else {}
  }

  lemma AfterCampaigning(cfg: Config, u2: System, u3: System, id: Id, p: Producer, c: Candidate,
                         heard: (seq<Envelope>, seq<Envelope>), now: (U64, U64))
    requires id in u2.nodes && u2.nodes[id] == Node(p, Campaigned(c)) && Delivered(u2.sent, heard.0)
    requires SameNode(Step(cfg, u2, Voting(id, heard.0, now.0)), u3, id) && Delivered(u3.sent, heard.1)
    ensures Step(cfg, u3, Synchronizing(id, heard.1, now.1)).finished ==
              u3.finished + ResultSet(p, Returned(cfg.env, p, c, heard, now))
  {
    Votes(cfg, u2, id, p, c, heard.0, now.0);
    PhasesKeepCycle(cfg.env, p, c, heard.0, now.0);
    match VoteHeard(cfg.env, p, c, heard.0, now.0) {
      case (Err(_), _) => IdleStays(cfg, u3, id, Synchronizing(id, heard.1, now.1));
      case (Ok(v), next) =>
        SynchronizeTaken(cfg, u3, id, heard.1, now.1);
        Synchronizes(cfg, u3, id, next, v, heard.1, now.1);
    }
  }

  lemma EngineReturns(env: Env, p: Producer, batch: seq<TransactionEntry>,
                      heard: (seq<Envelope>, seq<Envelope>, seq<Envelope>), now: (U64, U64, U64, U64))
    ensures var (q, p1) := Construct(env, p, batch, now.0);
            var r := RunCycle(env, p, batch, heard, now);
            match CampaignHeard(env, p1, q, heard.0, now.1)
            case (Err(_), _) => r.Err?
            case (Ok(c), p2) =>
              && p2.id == p.id && p2.cycle == p.cycle
              && Returned(env, p2, c, (heard.1, heard.2), (now.2, now.3)) == (if r.Ok? then r.value else None)
  {}

  /** A producer's actions of one cycle, taken in any surroundings, add its result exactly when
      the engine run on the same envelopes returns an update, and that very update. */
  lemma EngineRunIsNetworkRun(
    cfg: Config, s: System, a: Action, u1: System, u2: System, u3: System,
    heard: (seq<Envelope>, seq<Envelope>, seq<Envelope>), now: (U64, U64, U64))
    requires a.Start? && a.id in cfg.committee(a.cycle) && a.id !in cfg.faulty && (a.id, a.cycle) !in s.started
    requires SameNode(Step(cfg, s, a), u1, a.id) && Delivered(u1.sent, heard.0)
    requires SameNode(Step(cfg, u1, Campaigning(a.id, heard.0, now.0)), u2, a.id) && Delivered(u2.sent, heard.1)
    requires SameNode(Step(cfg, u2, Voting(a.id, heard.1, now.1)), u3, a.id) && Delivered(u3.sent, heard.2)
    ensures var p := ResetForCycle(NodeAt(s, a.id, a.key).producer, a.cycle, cfg.committee(a.cycle));
            var r := RunCycle(cfg.env, p, a.batch, heard, (a.now, now.0, now.1, now.2));
            Step(cfg, u3, Synchronizing(a.id, heard.2, now.2)).finished ==
              u3.finished + ResultSet(p, if r.Ok? then r.value else None)
  {
    var p := ResetForCycle(NodeAt(s, a.id, a.key).producer, a.cycle, cfg.committee(a.cycle));
    Starts(cfg, s, a);
    AfterStarting(cfg, u1, u2, u3, a.id, p, a.batch, heard, (a.now, now.0, now.1, now.2));
  }

  lemma AfterStarting(cfg: Config, u1: System, u2: System, u3: System, id: Id, p: Producer,
                      batch: seq<TransactionEntry>,
                      heard: (seq<Envelope>, seq<Envelope>, seq<Envelope>), now: (U64, U64, U64, U64))
    requires var (q, p1) := Construct(cfg.env, p, batch, now.0);
             id in u1.nodes && u1.nodes[id] == Node(p1, Constructed(q)) && Delivered(u1.sent, heard.0)
    requires SameNode(Step(cfg, u1, Campaigning(id, heard.0, now.1)), u2, id) && Delivered(u2.sent, heard.1)
    requires SameNode(Step(cfg, u2, Voting(id, heard.1, now.2)), u3, id) && Delivered(u3.sent, heard.2)
    ensures var r := RunCycle(cfg.env, p, batch, heard, now);
            Step(cfg, u3, Synchronizing(id, heard.2, now.3)).finished ==
            u3.finished + ResultSet(p, if r.Ok? then r.value else None)
  {
    EngineReturns(cfg.env, p, batch, heard, now);
    var (q, p1) := Construct(cfg.env, p, batch, now.0);
    Campaigns(cfg, u1, id, p1, q, heard.0, now.1);
    match CampaignHeard(cfg.env, p1, q, heard.0, now.1) {
      case (Err(_), _) =>
        IdleStays(cfg, u2, id, Voting(id, heard.1, now.2));
        IdleStays(cfg, u3, id, Synchronizing(id, heard.2, now.3));
      case (Ok(c), p2) =>
        AfterCampaigning(cfg, u2, u3, id, p2, c, (heard.1, heard.2), (now.2, now.3));
    }
  }
}
