/** Agreement over all runs. */
module Agreement {
  import opened Binary
  import opened Sorting
  import opened Merkle
  import opened Ledger
  import opened Construction
  import Majority
  import opened Phases
  import opened PhaseLaws
  import opened Protocol
  import opened Safety
  import opened Preservation
  import Codec

  /** Twice the quorum exceeds the number of possible voters plus the equivocators. Without
      faulty ids this always holds. */
  ghost predicate Intersecting(cfg: Config, cycle: U64) {
    |Members(cfg, cycle) + cfg.faulty| + |cfg.faulty| < 2 * Quorum(cfg, cycle)
  }

  lemma HonestAlwaysIntersect(cfg: Config, cycle: U64)
    requires cfg.faulty == {}
    ensures Intersecting(cfg, cycle)
  {
    assert Members(cfg, cycle) + {} == Members(cfg, cycle);
  }

  lemma FaultyBelowQuorum(cfg: Config, cycle: U64)
    requires Intersecting(cfg, cycle)
    ensures |cfg.faulty| < Quorum(cfg, cycle)
  {
    Majority.Subset(cfg.faulty, Members(cfg, cycle) + cfg.faulty);
  }

  /** Two large sets of voters share one that is not faulty. */
  lemma HonestOverlap(a: set<Id>, b: set<Id>, voters: set<Id>, faulty: set<Id>, quorum: nat) returns (id: Id)
    requires a <= voters && b <= voters
    requires |a| >= quorum && |b| >= quorum && |voters| + |faulty| < 2 * quorum
    ensures id in a && id in b && id !in faulty
  {
    assert |a + b| + |a * b| == |a| + |b| by { Overlap(a, b); }
    Majority.Subset(a + b, voters);
    if a * b <= faulty { Majority.Subset(a * b, faulty); }
    id :| id in a * b && id !in faulty;
  }

  lemma Overlap(a: set<Id>, b: set<Id>)
    ensures |a + b| + |a * b| == |a| + |b|
  {
    var rest := b - a;
    assert a + b == a + rest && a !! rest;
    assert b == (a * b) + rest && (a * b) !! rest;
  }

  lemma ReportersAreVoters(cfg: Config, s: System, round: Round, cycle: U64, digest: Octets)
    requires Inv(cfg, s)
    ensures Reporters(s.sent, round, cycle, digest) <= Members(cfg, cycle) + cfg.faulty
    ensures forall id :: id in Reporters(s.sent, round, cycle, digest) ==>
              |digest| == 32 && Reported(s.sent, Report(round, cycle, id, digest))
  {
    forall id | id in Reporters(s.sent, round, cycle, digest)
      ensures |digest| == 32 && Reported(s.sent, Report(round, cycle, id, digest)) &&
                id in Members(cfg, cycle) + cfg.faulty
    {
      var m :| m in s.sent && ReportOf(m).Some? && ReportOf(m).value.round == round &&
               ReportOf(m).value.cycle == cycle && ReportOf(m).value.digest == digest && ReportOf(m).value.id == id;
      assert ReportOf(m) == Some(Report(round, cycle, id, digest));
    }
  }

  /** Two digests each reported by a quorum in the last round are the same. */
  lemma VotesAgree(cfg: Config, s: System, cycle: U64, h: Octets, k: Octets)
    requires Inv(cfg, s) && Intersecting(cfg, cycle)
    requires |Reporters(s.sent, Third, cycle, h)| >= Quorum(cfg, cycle)
    requires |Reporters(s.sent, Third, cycle, k)| >= Quorum(cfg, cycle)
    ensures h == k
  {
    ReportersAreVoters(cfg, s, Third, cycle, h);
    ReportersAreVoters(cfg, s, Third, cycle, k);
    var id := HonestOverlap(Reporters(s.sent, Third, cycle, h), Reporters(s.sent, Third, cycle, k),
                            Members(cfg, cycle) + cfg.faulty, cfg.faulty, Quorum(cfg, cycle));
    assert Justified(cfg, s, Report(Third, cycle, id, h));
    assert Justified(cfg, s, Report(Third, cycle, id, k));
  }

  ghost predicate NoCollision(H: HashFn, x: Octets, y: Octets) { H(x) == H(y) ==> x == y }

  /** Lists short enough for their 32-bit length prefixes. */
  ghost predicate Encodable(u: LedgerUpdate) { UpdateFits(Codec.FIELD, u) }

  /** Any two producers that finish a cycle, in any run, return updates with one hash; and the
      very same update unless two different serializations collide. */
  lemma AgreementOverAllRuns(cfg: Config, actions: seq<Action>, f: Result, g: Result)
    requires f in Run(cfg, actions).finished && g in Run(cfg, actions).finished
    requires f.cycle == g.cycle && Intersecting(cfg, f.cycle)
    ensures UpdateHash(cfg.env, f.lsu) == UpdateHash(cfg.env, g.lsu)
    ensures NoCollision(cfg.env.hash, EncUpdate(f.lsu), EncUpdate(g.lsu)) && Encodable(f.lsu) && Encodable(g.lsu) ==>
              f.lsu == g.lsu
  {
    var s := Run(cfg, actions);
    RunKeeps(cfg, actions);
    PlanHash(cfg, s, f);
    PlanHash(cfg, s, g);
    VotesAgree(cfg, s, f.cycle, s.started[(f.id, f.cycle)].lsuHash, s.started[(g.id, g.cycle)].lsuHash);
    if EncUpdate(f.lsu) == EncUpdate(g.lsu) && Encodable(f.lsu) && Encodable(g.lsu) {
      UpdateBytesInjective(f.lsu, g.lsu);
    }
  }

  lemma PlanHash(cfg: Config, s: System, f: Result)
    requires Inv(cfg, s) && AllPlanned(cfg, s) && f in s.finished
    ensures Finished(cfg, s, f)
    ensures s.started[(f.id, f.cycle)].lsuHash == UpdateHash(cfg.env, f.lsu)
  {
    assert Finished(cfg, s, f);
    assert s.started[(f.id, f.cycle)] == PlanOf(cfg, f.cycle, s.started[(f.id, f.cycle)].batch);
  }

  // ---------- the content of the update ----------

  ghost predicate Opens(a: Action, id: Id, cycle: U64) { a.Start? && a.id == id && a.cycle == cycle }

  lemma {:induction false} StartedByAction(cfg: Config, actions: seq<Action>, id: Id, cycle: U64)
    requires (id, cycle) in Run(cfg, actions).started
    ensures exists i :: 0 <= i < |actions| && Opens(actions[i], id, cycle) &&
              Run(cfg, actions).started[(id, cycle)] == PlanOf(cfg, cycle, actions[i].batch)
  {
    var n := |actions| - 1;
    var s := Run(cfg, actions[..n]);
    if (id, cycle) in s.started {
      StartedByAction(cfg, actions[..n], id, cycle);
      var i :| 0 <= i < n && Opens(actions[..n][i], id, cycle) &&
               s.started[(id, cycle)] == PlanOf(cfg, cycle, actions[..n][i].batch);
      assert actions[i] == actions[..n][i];
      StartedStays(cfg, s, actions[n], (id, cycle));
    } else {
      StartedNow(cfg, s, actions[n], id, cycle);
    }
  }

  lemma StartedNow(cfg: Config, s: System, a: Action, id: Id, cycle: U64)
    requires (id, cycle) !in s.started && (id, cycle) in Step(cfg, s, a).started
    ensures Opens(a, id, cycle) && Step(cfg, s, a).started[(id, cycle)] == PlanOf(cfg, cycle, a.batch)
  {}

  lemma StartedStays(cfg: Config, s: System, a: Action, k: (Id, U64))
    requires k in s.started
    ensures k in Step(cfg, s, a).started && Step(cfg, s, a).started[k] == s.started[k]
  {}

  /** A returned update is fixed by the producer's own start action: the cycle, the batch it
      entered with, the committee and the rewards. Nothing that was heard can change it. */
  lemma UpdateFixedAtStart(cfg: Config, actions: seq<Action>, f: Result)
    requires f in Run(cfg, actions).finished
    ensures exists i :: 0 <= i < |actions| && Opens(actions[i], f.id, f.cycle) &&
              f.lsu == BuildUpdate(cfg.env, f.cycle, BuildPartial(cfg.env.hash, f.cycle, actions[i].batch),
                                   Canonical(cfg.committee(f.cycle)))
  {
    var s := Run(cfg, actions);
    RunKeeps(cfg, actions);
    PlanHash(cfg, s, f);
    StartedByAction(cfg, actions, f.id, f.cycle);
  }

  /** Every update returned in any run is of its own cycle, lists exactly the committee, and pays
      each member, under its own key, its share of the pool of the update's own fees. */
  lemma ReturnedUpdatePays(cfg: Config, actions: seq<Action>, f: Result)
    requires f in Run(cfg, actions).finished
    ensures f.lsu.cycle == f.cycle && f.lsu.voteList == f.lsu.producerList
    ensures StrictlyIncreasing(f.lsu.producerList) && Elements(f.lsu.producerList) == Members(cfg, f.cycle)
    ensures PaysExactly(cfg.env, f.lsu)
  {
    UpdateFixedAtStart(cfg, actions, f);
    var i :| 0 <= i < |actions| && Opens(actions[i], f.id, f.cycle) &&
             f.lsu == BuildUpdate(cfg.env, f.cycle, BuildPartial(cfg.env.hash, f.cycle, actions[i].batch),
                                  Canonical(cfg.committee(f.cycle)));
    RunKeeps(cfg, actions);
    assert Finished(cfg, Run(cfg, actions), f);
    var list := Canonical(cfg.committee(f.cycle));
    CanonicalMembers(cfg.committee(f.cycle));
    CanonicalStrict(cfg.committee(f.cycle));
    CanonicalElements(cfg.committee(f.cycle));
    BuiltUpdatePays(cfg.env, f.cycle, BuildPartial(cfg.env.hash, f.cycle, actions[i].batch), list);
  }

  // ---------- the batch behind the update ----------

  /** The honest committee members that entered the cycle with a batch of this first hash. */
  ghost function Builders(cfg: Config, s: System, cycle: U64, firstHash: Octets): set<Id> {
    set k | k in s.started && k.1 == cycle && k.0 in Members(cfg, cycle) && k.0 !in cfg.faulty &&
            s.started[k].firstHash == firstHash :: k.0
  }

  lemma HonestAmong(reporters: set<Id>, faulty: set<Id>)
    ensures |reporters - faulty| >= |reporters| - |faulty|
  {
    assert reporters == (reporters - faulty) + (reporters * faulty);
    Majority.Subset(reporters * faulty, faulty);
  }

  /** With fewer faulty ids than a quorum, an update is only ever returned if all but |faulty|
      of a committee majority built its very batch. */
  lemma MajorityBuiltTheBatch(cfg: Config, actions: seq<Action>, f: Result)
    requires f in Run(cfg, actions).finished && |cfg.faulty| < Quorum(cfg, f.cycle)
    ensures var builders := Builders(cfg, Run(cfg, actions), f.cycle, PartialHash(cfg.env.hash, f.lsu.partialUpdate));
            |builders| >= Quorum(cfg, f.cycle) - |cfg.faulty|
  {
    var s := Run(cfg, actions);
    RunKeeps(cfg, actions);
    PlanHash(cfg, s, f);
    PlanFirst(cfg, s, f);
    var first := s.started[(f.id, f.cycle)].firstHash;
    SecondRestsOnFirst(cfg, s, f.cycle, first);
    FirstReportersBuilt(cfg, s, f.cycle, first);
  }

  lemma PlanFirst(cfg: Config, s: System, f: Result)
    requires AllPlanned(cfg, s) && Finished(cfg, s, f)
    ensures s.started[(f.id, f.cycle)].firstHash == PartialHash(cfg.env.hash, f.lsu.partialUpdate)
  {
    assert s.started[(f.id, f.cycle)] == PlanOf(cfg, f.cycle, s.started[(f.id, f.cycle)].batch);
  }

  lemma SecondRestsOnFirst(cfg: Config, s: System, cycle: U64, first: Hash)
    requires Inv(cfg, s) && |cfg.faulty| < Quorum(cfg, cycle)
    requires |Reporters(s.sent, Second, cycle, first)| >= Quorum(cfg, cycle)
    ensures |Reporters(s.sent, First, cycle, first)| >= Quorum(cfg, cycle)
  {
    ReportersAreVoters(cfg, s, Second, cycle, first);
    var candidates := Reporters(s.sent, Second, cycle, first);
    HonestAmong(candidates, cfg.faulty);
    var id :| id in candidates - cfg.faulty;
    assert Justified(cfg, s, Report(Second, cycle, id, first));
  }

  lemma FirstReportersBuilt(cfg: Config, s: System, cycle: U64, first: Hash)
    requires Inv(cfg, s) && |Reporters(s.sent, First, cycle, first)| >= Quorum(cfg, cycle)
    ensures |Builders(cfg, s, cycle, first)| >= Quorum(cfg, cycle) - |cfg.faulty|
  {
    var reporters, builders := Reporters(s.sent, First, cycle, first), Builders(cfg, s, cycle, first);
    ReportersAreVoters(cfg, s, First, cycle, first);
    forall id | id in reporters - cfg.faulty ensures id in builders {
      assert Justified(cfg, s, Report(First, cycle, id, first));
      assert (id, cycle) in s.started;
    }
    HonestAmong(reporters, cfg.faulty);
    Majority.Subset(reporters - cfg.faulty, builders);
  }
}
