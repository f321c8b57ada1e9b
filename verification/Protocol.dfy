/** The network as a state machine: honest producers run cycles, messages are lost, delayed,
    duplicated and reordered at will, and the ids in `faulty` may say anything. */
module Protocol {
  import opened Binary
  import opened Sorting
  import opened Ledger
  import opened Construction
  import opened Phases
  import opened Network
  import opened Steps
  import opened Observer

  /** What all nodes share. Faulty ids may or may not be committee members. */
  datatype Config = Config(env: Env, committee: U64 -> seq<Id>, faulty: set<Id>)

  datatype Stage = Idle | Constructed(quantity: Quantity) | Campaigned(candidate: Candidate) | Voted(vote: Vote)

  datatype Node = Node(producer: Producer, stage: Stage)

  datatype Result = Result(id: Id, cycle: U64, lsu: LedgerUpdate)

  datatype Sighting = Sighting(cycle: U64, lsu: LedgerUpdate)

  /** What a batch leads to in a cycle, whatever is heard. */
  datatype Plan = Plan(batch: seq<TransactionEntry>, partial: PartialUpdate, firstHash: Hash, lsu: LedgerUpdate,
                       lsuHash: Hash)

  function PlanOf(cfg: Config, cycle: U64, batch: seq<TransactionEntry>): Plan {
    var partial := BuildPartial(cfg.env.hash, cycle, batch);
    var lsu := BuildUpdate(cfg.env, cycle, partial, Canonical(cfg.committee(cycle)));
    Plan(batch, partial, PartialHash(cfg.env.hash, partial), lsu, UpdateHash(cfg.env, lsu))
  }

  /** `started` remembers the batch each honest producer entered a cycle with, and its plan. */
  datatype System = System(
    nodes: map<Id, Node>,
    started: map<(Id, U64), Plan>,
    sent: set<Message>,
    finished: set<Result>,
    observed: set<Sighting>)

  datatype Action =
    | Start(id: Id, key: Hash, cycle: U64, batch: seq<TransactionEntry>, now: U64)
    | Campaigning(id: Id, heard: seq<Envelope>, now: U64)
    | Voting(id: Id, heard: seq<Envelope>, now: U64)
    | Synchronizing(id: Id, heard: seq<Envelope>, now: U64)
    | GiveUp(id: Id)
    | Inject(message: Message)
    | Observing(cycle: U64, forOutputs: seq<Envelope>, forUpdates: seq<Envelope>)

  function Sender(m: Message): Id {
    match m
    case QuantityMsg(q) => q.producerId
    case CandidateMsg(c) => c.producerId
    case VoteMsg(v) => v.producerId
    case OutputMsg(o) => o.producerId
    case UpdateMsg(b) => b.producerId
  }

  /** Any selection of sent messages, in any order and number, under any envelope type. */
  ghost predicate Delivered(sent: set<Message>, heard: seq<Envelope>) {
    forall e :: e in heard && e.body.Some? ==> e.body.value in sent
  }

  function NodeAt(s: System, id: Id, key: Hash): Node {
    if id in s.nodes then s.nodes[id] else Node(NewProducer(id, key, 0), Idle)
  }

  ghost function Send(s: System, id: Id, p: Producer, stage: Stage, ms: set<Message>): System {
    s.(nodes := s.nodes[id := Node(p, stage)], sent := s.sent + ms)
  }

  ghost function StartStep(cfg: Config, s: System, a: Action): System
    requires a.Start?
  {
    if a.id in cfg.faulty || a.id !in cfg.committee(a.cycle) || (a.id, a.cycle) in s.started then s
    else
      var p := ResetForCycle(NodeAt(s, a.id, a.key).producer, a.cycle, cfg.committee(a.cycle));
      var (quantity, next) := Construct(cfg.env, p, a.batch, a.now);
      Send(s, a.id, next, Constructed(quantity), {QuantityMsg(quantity)})
        .(started := s.started[(a.id, a.cycle) := PlanOf(cfg, a.cycle, a.batch)])
  }

  ghost function CampaignStep(cfg: Config, s: System, id: Id, heard: seq<Envelope>, now: U64): (t: System)
    requires id in s.nodes && s.nodes[id].stage.Constructed?
    ensures t.started == s.started
  {
    match CampaignHeard(cfg.env, s.nodes[id].producer, s.nodes[id].stage.quantity, heard, now)
    case (Err(_), p) => Send(s, id, p, Idle, {})
    case (Ok(candidate), p) => Send(s, id, p, Campaigned(candidate), {CandidateMsg(candidate)})
  }

  ghost function VoteStep(cfg: Config, s: System, id: Id, heard: seq<Envelope>, now: U64): (t: System)
    requires id in s.nodes && s.nodes[id].stage.Campaigned?
    ensures t.started == s.started
  {
    match VoteHeard(cfg.env, s.nodes[id].producer, s.nodes[id].stage.candidate, heard, now)
    case (Err(_), p) => Send(s, id, p, Idle, {})
    case (Ok(vote), p) => Send(s, id, p, Voted(vote), {VoteMsg(vote)})
  }

  /** A producer that synchronizes publishes its output and the update, and returns the update. */
  ghost function Publish(s: System, id: Id, p: Producer, output: Output): (t: System)
    ensures t.started == s.started
    ensures t.finished ==
              s.finished + if p.ledgerUpdate.Some? then {Result(p.id, p.cycle, p.ledgerUpdate.value)} else {}
  {
    if p.ledgerUpdate.None? then Send(s, id, p, Idle, {OutputMsg(output)})
    else
      var lsu := p.ledgerUpdate.value;
      Send(s, id, p, Idle, {OutputMsg(output), UpdateMsg(LsuBroadcast(lsu, p.cycle, p.id))})
        .(finished := s.finished + {Result(p.id, p.cycle, lsu)})
  }

  ghost function SynchronizeStep(cfg: Config, s: System, id: Id, heard: seq<Envelope>, now: U64): (t: System)
    requires id in s.nodes && s.nodes[id].stage.Voted?
    ensures t.started == s.started
  {
    var p := s.nodes[id].producer;
    match SynchronizeHeard(cfg.env, p, s.nodes[id].stage.vote, heard, now)
    case Err(_) => Send(s, id, p, Idle, {})
    case Ok(output) => Publish(s, id, p, output)
  }

  ghost function ObserveStep(cfg: Config, s: System, cycle: U64, forOutputs: seq<Envelope>,
                             forUpdates: seq<Envelope>): (t: System)
    ensures t.started == s.started
  {
    match Observed(cfg.env, cfg.committee(cycle), cycle, forOutputs, forUpdates)
    case None => s
    case Some(lsu) => s.(observed := s.observed + {Sighting(cycle, lsu)})
  }

  ghost predicate CanCampaign(s: System, id: Id, heard: seq<Envelope>) {
    id in s.nodes && s.nodes[id].stage.Constructed? && Delivered(s.sent, heard)
  }

  ghost predicate CanVote(s: System, id: Id, heard: seq<Envelope>) {
    id in s.nodes && s.nodes[id].stage.Campaigned? && Delivered(s.sent, heard)
  }

  ghost predicate CanSynchronize(s: System, id: Id, heard: seq<Envelope>) {
    id in s.nodes && s.nodes[id].stage.Voted? && Delivered(s.sent, heard)
  }

  ghost predicate CanObserve(s: System, forOutputs: seq<Envelope>, forUpdates: seq<Envelope>) {
    Delivered(s.sent, forOutputs) && Delivered(s.sent, forUpdates)
  }

  /** An action that is not possible in `s` leaves it unchanged. */
  ghost function Step(cfg: Config, s: System, a: Action): (t: System)
    ensures a.Start? || t.started == s.started
  {
    match a
    case Start(_, _, _, _, _) => StartStep(cfg, s, a)
    case Campaigning(id, heard, now) =>
      if CanCampaign(s, id, heard) then CampaignStep(cfg, s, id, heard, now) else s
    case Voting(id, heard, now) =>
      if CanVote(s, id, heard) then VoteStep(cfg, s, id, heard, now) else s
    case Synchronizing(id, heard, now) =>
      if CanSynchronize(s, id, heard) then SynchronizeStep(cfg, s, id, heard, now) else s
    case GiveUp(id) => if id in s.nodes then Send(s, id, s.nodes[id].producer, Idle, {}) else s
    case Inject(m) => if Sender(m) in cfg.faulty then s.(sent := s.sent + {m}) else s
    case Observing(cycle, forOutputs, forUpdates) =>
      if CanObserve(s, forOutputs, forUpdates) then ObserveStep(cfg, s, cycle, forOutputs, forUpdates) else s
  }

  ghost const INITIAL: System := System(map[], map[], {}, {}, {})

  ghost function Run(cfg: Config, actions: seq<Action>): System {
    if actions == [] then INITIAL
    else var n := |actions| - 1; Step(cfg, Run(cfg, actions[..n]), actions[n])
  }
}
