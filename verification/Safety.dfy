/** What every reachable state of the network keeps. */
module Safety {
  import opened Binary
  import opened Sorting
  import Majority
  import opened Phases
  import opened Network
  import opened Observer
  import opened Protocol

  ghost function Members(cfg: Config, cycle: U64): set<Id> { Elements(cfg.committee(cycle)) }

  /** A strict majority of the committee. */
  ghost function Quorum(cfg: Config, cycle: U64): nat { |Members(cfg, cycle)| / 2 + 1 }

  // ---------- reports ----------

  datatype Round = First | Second | Third

  datatype Report = Report(round: Round, cycle: U64, id: Id, digest: Hash)

  function ReportOf(m: Message): Option<Report> {
    match m
    case QuantityMsg(q) => Some(Report(First, q.cycle, q.producerId, q.firstHash))
    case CandidateMsg(c) => Some(Report(Second, c.cycle, c.producerId, c.majorityHash))
    case VoteMsg(v) => Some(Report(Third, v.cycle, v.producerId, v.ledgerHash))
    case OutputMsg(_) => None
    case UpdateMsg(_) => None
  }

  ghost predicate Reported(sent: set<Message>, r: Report) {
    exists m :: m in sent && ReportOf(m) == Some(r)
  }

  /** The ids in whose name the digest was reported. */
  ghost function Reporters(sent: set<Message>, round: Round, cycle: U64, digest: Octets): set<Id> {
    set m | m in sent && ReportOf(m).Some? && ReportOf(m).value.round == round &&
            ReportOf(m).value.cycle == cycle && ReportOf(m).value.digest == digest :: ReportOf(m).value.id
  }

  ghost function Publishers(sent: set<Message>, cycle: U64, address: Octets): set<Id> {
    set m | m in sent && m.OutputMsg? && m.output.cycle == cycle && m.output.address == address :: m.output.producerId
  }

  // ---------- the invariant ----------

  ghost predicate Entered(cfg: Config, s: System, id: Id, cycle: U64) {
    id !in cfg.faulty && id in Members(cfg, cycle) && (id, cycle) in s.started
  }

  /** An honest report is a function of the batch the sender started with (first and third
      round) and rests on a quorum of reports of the round before (second and third). */
  ghost predicate Justified(cfg: Config, s: System, r: Report) {
    && Entered(cfg, s, r.id, r.cycle)
    && var plan := s.started[(r.id, r.cycle)];
       match r.round
       case First => r.digest == plan.firstHash
       case Second => |Reporters(s.sent, First, r.cycle, r.digest)| >= Quorum(cfg, r.cycle)
       case Third =>
         r.digest == plan.lsuHash && |Reporters(s.sent, Second, r.cycle, plan.firstHash)| >= Quorum(cfg, r.cycle)
  }

  /** Honest outputs and broadcasts come after finishing. */
  ghost predicate Published(cfg: Config, s: System, m: Message) {
    match m
    case OutputMsg(o) =>
      && Entered(cfg, s, o.producerId, o.cycle)
      && var plan := s.started[(o.producerId, o.cycle)];
         Result(o.producerId, o.cycle, plan.lsu) in s.finished && o.address == AddressOf(plan.lsuHash)
    case UpdateMsg(b) => Result(b.producerId, b.cycle, b.lsu) in s.finished
    case _ => true
  }

  ghost predicate Finished(cfg: Config, s: System, f: Result) {
    && Entered(cfg, s, f.id, f.cycle)
    && var plan := s.started[(f.id, f.cycle)];
       && f.lsu == plan.lsu
       && |Reporters(s.sent, Third, f.cycle, plan.lsuHash)| >= Quorum(cfg, f.cycle)
       && |Reporters(s.sent, Second, f.cycle, plan.firstHash)| >= Quorum(cfg, f.cycle)
  }

  ghost predicate Sighted(cfg: Config, s: System, o: Sighting) {
    |Publishers(s.sent, o.cycle, AddressOf(UpdateHash(cfg.env, o.lsu)))| >= ObserverRequired(cfg.committee(o.cycle))
  }

  /** A producer in mid-cycle holds the partial update of its batch and its last message is out. */
  ghost predicate Working(cfg: Config, s: System, id: Id, n: Node) {
    var p := n.producer;
    && p.id == id
    && (n.stage != Idle ==>
          && Entered(cfg, s, id, p.cycle)
          && p.selected == Canonical(cfg.committee(p.cycle))
          && Required(p) == Quorum(cfg, p.cycle)
          && var plan := s.started[(id, p.cycle)];
             && p.partialUpdate == Some(plan.partial)
             && p.firstHash == Some(plan.firstHash)
             && match n.stage
                case Idle => true
                case Constructed(q) => q.producerId == id && q.cycle == p.cycle && QuantityMsg(q) in s.sent
                case Campaigned(c) => c.producerId == id && c.cycle == p.cycle && CandidateMsg(c) in s.sent
                case Voted(v) =>
                  && v.producerId == id && v.cycle == p.cycle && VoteMsg(v) in s.sent
                  && p.ledgerUpdate == Some(plan.lsu))
  }

  ghost predicate ReportsJustified(cfg: Config, s: System) {
    forall r :: Reported(s.sent, r) && r.id !in cfg.faulty ==> Justified(cfg, s, r)
  }

  ghost predicate AllPublished(cfg: Config, s: System) {
    forall m :: m in s.sent && Sender(m) !in cfg.faulty ==> Published(cfg, s, m)
  }

  ghost predicate AllFinished(cfg: Config, s: System) { forall f :: f in s.finished ==> Finished(cfg, s, f) }

  ghost predicate AllSighted(cfg: Config, s: System) { forall o :: o in s.observed ==> Sighted(cfg, s, o) }

  ghost predicate AllWorking(cfg: Config, s: System) { forall id :: id in s.nodes ==> Working(cfg, s, id, s.nodes[id]) }

  ghost predicate AllPlanned(cfg: Config, s: System) {
    forall k :: k in s.started ==> s.started[k] == PlanOf(cfg, k.1, s.started[k].batch)
  }

  ghost predicate Inv(cfg: Config, s: System) {
    ReportsJustified(cfg, s) && AllPublished(cfg, s) && AllFinished(cfg, s) && AllSighted(cfg, s) && AllWorking(cfg, s)
  }

  // ---------- growth ----------

  /** Nothing sent, started or finished is ever withdrawn. */
  ghost predicate Grows(s: System, t: System) {
    && s.sent <= t.sent && s.finished <= t.finished
    && forall k :: k in s.started ==> k in t.started && t.started[k] == s.started[k]
  }

  lemma ReportersGrow(s: set<Message>, t: set<Message>, round: Round, cycle: U64, digest: Octets)
    requires s <= t
    ensures |Reporters(s, round, cycle, digest)| <= |Reporters(t, round, cycle, digest)|
  {
    Majority.Subset(Reporters(s, round, cycle, digest), Reporters(t, round, cycle, digest));
  }

  lemma JustifiedGrows(cfg: Config, s: System, t: System, r: Report)
    requires Grows(s, t) && Justified(cfg, s, r)
    ensures Justified(cfg, t, r)
  {
    assert (r.id, r.cycle) in t.started && t.started[(r.id, r.cycle)] == s.started[(r.id, r.cycle)];
    match r.round {
      case First =>
      case Second => ReportersGrow(s.sent, t.sent, First, r.cycle, r.digest);
      case Third =>
        ReportersGrow(s.sent, t.sent, Second, r.cycle, s.started[(r.id, r.cycle)].firstHash);
    }
  }

  lemma PublishedGrows(cfg: Config, s: System, t: System, m: Message)
    requires Grows(s, t) && Published(cfg, s, m)
    ensures Published(cfg, t, m)
  {}

  lemma FinishedGrows(cfg: Config, s: System, t: System, f: Result)
    requires Grows(s, t) && Finished(cfg, s, f)
    ensures Finished(cfg, t, f)
  {
    assert (f.id, f.cycle) in t.started && t.started[(f.id, f.cycle)] == s.started[(f.id, f.cycle)];
    ReportersGrow(s.sent, t.sent, Third, f.cycle, s.started[(f.id, f.cycle)].lsuHash);
    ReportersGrow(s.sent, t.sent, Second, f.cycle, s.started[(f.id, f.cycle)].firstHash);
  }

  lemma SightedGrows(cfg: Config, s: System, t: System, o: Sighting)
    requires Grows(s, t) && Sighted(cfg, s, o)
    ensures Sighted(cfg, t, o)
  {
    var a := AddressOf(UpdateHash(cfg.env, o.lsu));
    Majority.Subset(Publishers(s.sent, o.cycle, a), Publishers(t.sent, o.cycle, a));
  }

  lemma WorkingGrows(cfg: Config, s: System, t: System, id: Id, n: Node)
    requires Grows(s, t) && Working(cfg, s, id, n)
    ensures Working(cfg, t, id, n)
  {}

  ghost predicate MessagesInOrder(cfg: Config, s: System, t: System) {
    forall m :: m in t.sent - s.sent && Sender(m) !in cfg.faulty ==>
      Published(cfg, t, m) && (ReportOf(m).Some? ==> Justified(cfg, t, ReportOf(m).value))
  }

  lemma ReportsExtend(cfg: Config, s: System, t: System)
    requires ReportsJustified(cfg, s) && Grows(s, t) && MessagesInOrder(cfg, s, t)
    ensures ReportsJustified(cfg, t)
  {
    forall r | Reported(t.sent, r) && r.id !in cfg.faulty ensures Justified(cfg, t, r) {
      var m :| m in t.sent && ReportOf(m) == Some(r);
      if m in s.sent {
        assert Reported(s.sent, r);
        JustifiedGrows(cfg, s, t, r);
      }
    }
  }

  lemma PublishedExtend(cfg: Config, s: System, t: System)
    requires AllPublished(cfg, s) && Grows(s, t) && MessagesInOrder(cfg, s, t)
    ensures AllPublished(cfg, t)
  {
    forall m | m in t.sent && Sender(m) !in cfg.faulty ensures Published(cfg, t, m) {
      if m in s.sent { PublishedGrows(cfg, s, t, m); }
    }
  }

  /** What a step must establish: the new messages, result, sighting and node are in order. */
  lemma Extend(cfg: Config, s: System, t: System)
    requires Inv(cfg, s) && Grows(s, t) && MessagesInOrder(cfg, s, t)
    requires forall f :: f in t.finished - s.finished ==> Finished(cfg, t, f)
    requires forall o :: o in t.observed - s.observed ==> Sighted(cfg, t, o)
    requires forall id :: id in t.nodes ==>
               (id in s.nodes && t.nodes[id] == s.nodes[id]) || Working(cfg, t, id, t.nodes[id])
    ensures Inv(cfg, t)
  {
    ReportsExtend(cfg, s, t);
    PublishedExtend(cfg, s, t);
    forall f | f in t.finished ensures Finished(cfg, t, f) {
      if f in s.finished { FinishedGrows(cfg, s, t, f); }
    }
    forall o | o in t.observed ensures Sighted(cfg, t, o) {
      if o in s.observed { SightedGrows(cfg, s, t, o); }
    }
    forall id | id in t.nodes ensures Working(cfg, t, id, t.nodes[id]) {
      if id in s.nodes && t.nodes[id] == s.nodes[id] { WorkingGrows(cfg, s, t, id, t.nodes[id]); }
    }
  }
}
