/** Which of several competing updates of one cycle a node keeps. */
module ForkChoice {
  import opened Binary
  import opened Sorting
  import opened Ledger
  import opened Phases
  import opened Certificates
  import opened Merkle
  import Finality
  import opened Construction
  import opened Protocol
  import opened Safety
  import opened Preservation
  import opened Agreement

  datatype Tier = Unproven | QuorumInferred | Certified {
    function Rank(): nat { match this case Unproven => 0 case QuorumInferred => 1 case Certified => 2 }
  }

  /** Candidates compete at one cycle, which is left implicit. */
  datatype Head = Head(lsuHash: Hash, tier: Tier, rootCertified: bool)

  datatype Preference = Left | Right | Tie

  // ---------- evidence ----------

  ghost predicate VoteQuorum(lsu: LedgerUpdate) {
    && lsu.producerList != [] && Elements(lsu.voteList) <= Elements(lsu.producerList)
    && |Elements(lsu.voteList)| >= Threshold(|lsu.producerList|)
  }

  /** A vote quorum: only producers voted, and two thirds of them did, counting each once. */
  lemma VoteQuorumExactly(lsu: LedgerUpdate)
    ensures VoteQuorum(lsu) <==>
              && lsu.producerList != [] && (forall v :: v in lsu.voteList ==> v in lsu.producerList)
              && 3 * |Elements(lsu.voteList)| >= 2 * |lsu.producerList|
  {
    assert forall v :: v in lsu.voteList <==> v in Elements(lsu.voteList);
    assert forall v :: v in lsu.producerList <==> v in Elements(lsu.producerList);
  }

  method HasVoteQuorum(lsu: LedgerUpdate) returns (r: bool)
    ensures r <==> VoteQuorum(lsu)
  {
    if lsu.producerList == [] { return false; }
    var seen: set<Id> := {};
    for i := 0 to |lsu.voteList|
      invariant seen == Elements(lsu.voteList[..i]) && seen <= Elements(lsu.producerList)
    {
      var v := lsu.voteList[i];
      assert v in Elements(lsu.voteList);
      if v !in lsu.producerList { return false; }
      ElementsConcat(lsu.voteList[..i], [v]);
      ElementsSingle(v);
      assert lsu.voteList[..i + 1] == lsu.voteList[..i] + [v];
      seen := seen + {v};
    }
    assert lsu.voteList[..|lsu.voteList|] == lsu.voteList;
    r := |seen| >= Threshold(|lsu.producerList|);
  }

  function TierOf(certified: bool, quorate: bool, certifiedOnly: bool): Tier {
    if certified then Certified else if !certifiedOnly && quorate then QuorumInferred else Unproven
  }

  method EffectiveTier(lsu: LedgerUpdate, certified: bool, certifiedOnly: bool) returns (t: Tier)
    ensures t == TierOf(certified, VoteQuorum(lsu), certifiedOnly)
  {
    if certified { return Certified; }
    if certifiedOnly { return Unproven; }
    var quorum := HasVoteQuorum(lsu);
    t := if quorum then QuorumInferred else Unproven;
  }

  /** Every update that voting builds carries the vote quorum. */
  lemma VotedUpdatesAreQuorate(env: Env, cycle: U64, update: PartialUpdate, list: seq<Id>)
    requires list != [] && StrictlyIncreasing(list)
    ensures VoteQuorum(BuildUpdate(env, cycle, update, list))
  {
    DistinctCardinality(list);
  }

  /** So does every update that a producer returns in any run of the network. */
  lemma FinishedUpdatesAreQuorate(cfg: Config, actions: seq<Action>, f: Result)
    requires f in Run(cfg, actions).finished
    ensures VoteQuorum(f.lsu)
  {
    UpdateFixedAtStart(cfg, actions, f);
    var i :| 0 <= i < |actions| && Opens(actions[i], f.id, f.cycle) &&
             f.lsu == BuildUpdate(cfg.env, f.cycle, BuildPartial(cfg.env.hash, f.cycle, actions[i].batch),
                                  Canonical(cfg.committee(f.cycle)));
    MembersFinish(cfg, actions, f);
    CanonicalStrict(cfg.committee(f.cycle));
    VotedUpdatesAreQuorate(cfg.env, f.cycle, BuildPartial(cfg.env.hash, f.cycle, actions[i].batch),
                           Canonical(cfg.committee(f.cycle)));
  }

  lemma MembersFinish(cfg: Config, actions: seq<Action>, f: Result)
    requires f in Run(cfg, actions).finished
    ensures Canonical(cfg.committee(f.cycle)) != []
  {
    RunKeeps(cfg, actions);
    assert Finished(cfg, Run(cfg, actions), f);
    CanonicalMembers(cfg.committee(f.cycle));
  }

  // ---------- two certificates at one cycle ----------

  datatype Registration = Registered | Conflicting(existing: Hash, newer: Hash)

  function RegisterCertifiedHash(stored: Option<Hash>, newer: Hash): Registration {
    match stored
    case None => Registered
    case Some(existing) => if existing == newer then Registered else Conflicting(existing, newer)
  }

  /** A conflict is reported exactly when another hash is already on record, and names both. */
  lemma ConflictReported(stored: Option<Hash>, newer: Hash, existing: Hash)
    ensures RegisterCertifiedHash(stored, newer) == Conflicting(existing, newer) <==>
              stored == Some(existing) && existing != newer
    ensures RegisterCertifiedHash(stored, newer) == Registered <==> stored.None? || stored == Some(newer)
  {}

  /** A node reports conflicting certificates over one committee only if at least a third of
      that committee signed both. */
  lemma ConflictIsAccountable(suite: Suite, x: Finality.Certificate, lsu: LedgerUpdate, y: Finality.Certificate,
                              other: LedgerUpdate)
    requires Finality.Certifies(suite, x, lsu) && Finality.Certifies(suite, y, other) &&
               lsu.producerList == other.producerList
    requires CollisionFree(suite.trunc, {Finality.Preimage(x), Finality.Preimage(y)})
    requires RegisterCertifiedHash(Some(x.lsuHash), y.lsuHash).Conflicting?
    ensures 3 * |DoubleSigners(suite, Finality.Digest(suite, x), Finality.Digest(suite, y), x.votes, y.votes)| >=
              |lsu.producerList|
  {
    Finality.ConflictNeedsDoubleSigners(suite, x, lsu, y, other);
  }

  // ---------- the comparison ----------

  function Prefer(a: Head, b: Head): Preference {
    if a.lsuHash == b.lsuHash then Tie
    else if a.tier.Rank() > b.tier.Rank() then Left
    else if a.tier.Rank() < b.tier.Rank() then Right
    else match (a.rootCertified, b.rootCertified)
      case (true, false) => Left
      case (false, true) => Right
      case _ => if Less(a.lsuHash, b.lsuHash) then Left else Right
  }

  predicate IncomingBeatsStored(incoming: Head, stored: Head) { Prefer(incoming, stored) == Left }

  predicate IncomingWeakerThanStored(incoming: Head, stored: Head) { Prefer(incoming, stored) == Right }

  /** The two readings of the comparison are opposite, and between different hashes there is
      always a winner. */
  lemma PreferenceIsTotal(a: Head, b: Head)
    ensures IncomingBeatsStored(a, b) <==> IncomingWeakerThanStored(b, a)
    ensures a.lsuHash != b.lsuHash ==> IncomingBeatsStored(a, b) != IncomingBeatsStored(b, a)
    ensures a.lsuHash == b.lsuHash ==> Prefer(a, b) == Tie
  {
    LeqTotal(a.lsuHash, b.lsuHash);
    if Leq(a.lsuHash, b.lsuHash) && Leq(b.lsuHash, a.lsuHash) { LeqAntisymmetric(a.lsuHash, b.lsuHash); }
  }

  lemma PreferenceIsTransitive(a: Head, b: Head, c: Head)
    requires a.lsuHash != c.lsuHash
    requires IncomingBeatsStored(a, b) && IncomingBeatsStored(b, c)
    ensures IncomingBeatsStored(a, c)
  {
    if Leq(a.lsuHash, b.lsuHash) && Leq(b.lsuHash, c.lsuHash) { LeqTransitive(a.lsuHash, b.lsuHash, c.lsuHash); }
  }

  // ---------- the canonical slot of a cycle ----------

  /** The hashes of updates that carry a vote quorum, and whether only certificates count. */
  datatype Rules = Rules(certifiedOnly: bool, quorate: set<Hash>)

  /** Which update, if any, the certificate recorded for the cycle verifies for, as far as it can
      be read locally; the same of the state-root certificate. */
  datatype Evidence = Evidence(cert: Option<Hash>, root: Option<Hash>)

  /** What a cycle's slot holds: a hash alone. Its evidence is looked up at every comparison. */
  datatype Slot = Slot(head: Option<Hash>, evidence: Evidence)

  /** An announced update may name a certificate, which is then read instead of the recorded one.
      An update that the node applies is written without a comparison. */
  datatype Hint = NoHint | Hinted(verifies: Option<Hash>)

  datatype Event =
    | Announce(hash: Hash, hint: Hint)
    | Applied(hash: Hash)
    | CertFound(cert: Option<Hash>)
    | RootFound(root: Option<Hash>)

  function LookedUp(rules: Rules, e: Evidence, h: Hash): Head {
    Head(h, TierOf(e.cert == Some(h), h in rules.quorate, rules.certifiedOnly), e.root == Some(h))
  }

  function Incoming(rules: Rules, e: Evidence, h: Hash, hint: Hint): Head {
    LookedUp(rules, if hint.NoHint? then e else e.(cert := hint.verifies), h)
  }

  /** The announced update `h` replaces a stored `d`. */
  predicate Replaces(rules: Rules, e: Evidence, h: Hash, hint: Hint, d: Hash) {
    IncomingBeatsStored(Incoming(rules, e, h, hint), LookedUp(rules, e, d))
  }

  predicate Offers(event: Event) { event.Announce? || event.Applied? }

  predicate Names(event: Event, h: Hash) { Offers(event) && event.hash == h }

  /** The event puts its own hash in the place of a stored `d`. */
  predicate Takes(rules: Rules, e: Evidence, event: Event, d: Hash) {
    match event
    case Announce(h, hint) => Replaces(rules, e, h, hint, d)
    case Applied(_) => true
    case _ => false
  }

  function Next(rules: Rules, s: Slot, event: Event): Slot {
    match event
    case CertFound(cert) => s.(evidence := s.evidence.(cert := cert))
    case RootFound(root) => s.(evidence := s.evidence.(root := root))
    case _ =>
      if s.head.None? || Takes(rules, s.evidence, event, s.head.value) then s.(head := Some(event.hash)) else s
  }

  function After(rules: Rules, s: Slot, events: seq<Event>): Slot {
    if events == [] then s
    else Next(rules, After(rules, s, events[..|events| - 1]), events[|events| - 1])
  }

  /** The announced update has a verified certificate, the one it names or else the recorded one. */
  ghost predicate CertifiedNow(e: Evidence, h: Hash, hint: Hint) {
    match hint case NoHint => e.cert == Some(h) case Hinted(v) => v == Some(h)
  }

  /** Which of two updates is preferred: a certified one to one that is not; then, unless only
      certificates count, one with a vote quorum to one without; then one whose state root is
      certified; and of two with the same evidence the one with the smaller hash. */
  lemma ReplacesExactly(rules: Rules, e: Evidence, h: Hash, hint: Hint, d: Hash)
    ensures Replaces(rules, e, h, hint, d) <==>
              h != d &&
              if CertifiedNow(e, h, hint) != (e.cert == Some(d)) then CertifiedNow(e, h, hint)
              else if !CertifiedNow(e, h, hint) && !rules.certifiedOnly && (h in rules.quorate) != (d in rules.quorate)
              then h in rules.quorate
              else if (e.root == Some(h)) != (e.root == Some(d)) then e.root == Some(h)
              else Less(h, d)
  {}

  /** The metadata of one cycle, as the node's handlers change it. */
  class CanonicalSlot {
    const rules: Rules
    var head: Option<Hash>
    var recordedCert: Option<Hash>
    var recordedRoot: Option<Hash>

    constructor (rules: Rules)
      ensures this.rules == rules && Contents() == Slot(None, Evidence(None, None))
    {
      this.rules := rules;
      head, recordedCert, recordedRoot := None, None, None;
    }

    function Contents(): Slot
      reads this
    {
      Slot(head, Evidence(recordedCert, recordedRoot))
    }

    method CandidateFor(h: Hash, hint: Hint) returns (c: Head)
      ensures c == Incoming(rules, Contents().evidence, h, hint)
    {
      var cert := match hint case NoHint => recordedCert case Hinted(verifies) => verifies;
      c := Head(h, TierOf(cert == Some(h), h in rules.quorate, rules.certifiedOnly), recordedRoot == Some(h));
    }

    method RejectsWeaker(incoming: Head) returns (r: bool)
      ensures r <==> head.Some? && head.value != incoming.lsuHash &&
                     IncomingWeakerThanStored(incoming, LookedUp(rules, Contents().evidence, head.value))
    {
      if head.None? || head.value == incoming.lsuHash { return false; }
      var stored := CandidateFor(head.value, NoHint);
      r := IncomingWeakerThanStored(incoming, stored);
    }

    method Persist(h: Hash, hint: Hint)
      modifies this
      ensures Contents() == Next(rules, old(Contents()), Announce(h, hint))
    {
      var incoming := CandidateFor(h, hint);
      var weaker := RejectsWeaker(incoming);
      if head.Some? { PreferenceIsTotal(incoming, LookedUp(rules, Contents().evidence, head.value)); }
      if !weaker { head := Some(h); }
    }

    method RecordApplied(h: Hash)
      modifies this
      ensures Contents() == Next(rules, old(Contents()), Applied(h))
    {
      head := Some(h);
    }

    method RecordCertificate(cert: Option<Hash>)
      modifies this
      ensures Contents() == Next(rules, old(Contents()), CertFound(cert))
    {
      recordedCert := cert;
    }

    method RecordRootCertificate(root: Option<Hash>)
      modifies this
      ensures Contents() == Next(rules, old(Contents()), RootFound(root))
    {
      recordedRoot := root;
    }

    /** The handlers one after another, in order of arrival. */
    method Follow(events: seq<Event>)
      modifies this
      ensures Contents() == After(rules, old(Contents()), events)
    {
      for i := 0 to |events|
        invariant Contents() == After(rules, old(Contents()), events[..i])
      {
        assert events[..i + 1] == events[..i] + [events[i]];
        AfterStep(rules, old(Contents()), events[..i], events[i]);
        match events[i]
        case Announce(h, hint) => Persist(h, hint);
        case Applied(h) => RecordApplied(h);
        case CertFound(cert) => RecordCertificate(cert);
        case RootFound(root) => RecordRootCertificate(root);
      }
      assert events[..|events|] == events;
    }
  }

  lemma AfterStep(rules: Rules, s: Slot, events: seq<Event>, x: Event)
    ensures After(rules, s, events + [x]) == Next(rules, After(rules, s, events), x)
  {
    assert (events + [x])[..|events|] == events;
  }

  lemma AfterThree(rules: Rules, s: Slot, x: Event, y: Event, z: Event)
    ensures After(rules, s, [x, y, z]) == Next(rules, Next(rules, Next(rules, s, x), y), z)
  {
    assert [x] == [] + [x] && [x, y] == [x] + [y] && [x, y, z] == [x, y] + [z];
    AfterStep(rules, s, [], x);
    AfterStep(rules, s, [x], y);
    AfterStep(rules, s, [x, y], z);
  }

  lemma {:induction false} AfterConcat(rules: Rules, s: Slot, a: seq<Event>, b: seq<Event>)
    ensures After(rules, s, a + b) == After(rules, After(rules, s, a), b)
    decreases |b|
  {
    if b == [] {
      assert a + b == a;
    } else {
      var front, x := b[..|b| - 1], b[|b| - 1];
      assert a + b == (a + front) + [x];
      AfterStep(rules, s, a + front, x);
      AfterConcat(rules, s, a, front);
    }
  }

  // ---------- when every order of arrival ends on one hash ----------

  ghost predicate ConvergesTo(rules: Rules, start: Evidence, events: set<Event>, w: Hash) {
    forall order :: Elements(order) == events ==> After(rules, Slot(None, start), order).head == Some(w)
  }

  /** The evidence that can be in the slot at some moment of some order. */
  ghost predicate Reachable(start: Evidence, events: set<Event>, e: Evidence) {
    && (e.cert == start.cert || CertFound(e.cert) in events)
    && (e.root == start.root || RootFound(e.root) in events)
  }

  ghost predicate Holds(rules: Rules, start: Evidence, events: set<Event>, w: Hash) {
    forall a, e :: a in events && Offers(a) && a.hash != w && Reachable(start, events, e) ==>
      !Takes(rules, e, a, w)
  }

  ghost predicate Overtakes(rules: Rules, e: Evidence, events: set<Event>, w: Hash, d: Hash) {
    exists b :: b in events && Names(b, w) && Takes(rules, e, b, d)
  }

  ghost predicate Wins(rules: Rules, start: Evidence, events: set<Event>, w: Hash) {
    forall a, e :: a in events && Offers(a) && a.hash != w && Reachable(start, events, e) ==>
      Overtakes(rules, e, events, w, a.hash)
  }

  ghost predicate Named(events: set<Event>, w: Hash) { exists b :: b in events && Names(b, w) }

  /** The head of a run was named, and its evidence was found. */
  lemma {:induction false} HeadWasNamed(rules: Rules, start: Evidence, events: set<Event>, order: seq<Event>)
    requires Elements(order) <= events
    ensures var s := After(rules, Slot(None, start), order);
            Reachable(start, events, s.evidence) && (s.head.Some? ==> Named(events, s.head.value))
    decreases |order|
  {
    if order != [] {
      var front, x := order[..|order| - 1], order[|order| - 1];
      assert order == front + [x];
      ElementsConcat(front, [x]);
      assert x in Elements(order);
      HeadWasNamed(rules, start, events, front);
    }
  }

  function Strength(b: Event): nat
    requires Offers(b)
  {
    match b
    case Applied(_) => 3
    case Announce(h, Hinted(v)) => if v == Some(h) then 2 else 0
    case Announce(_, NoHint) => 1
  }

  lemma StrongerTakes(rules: Rules, e: Evidence, w: Hash, d: Hash, strong: Event, weak: Event)
    requires Names(strong, w) && Names(weak, w) && Strength(strong) >= Strength(weak) && Takes(rules, e, weak, d)
    ensures Takes(rules, e, strong, d)
  {}

  lemma StrongestOf(events: set<Event>, w: Hash) returns (best: Event)
    requires Named(events, w)
    ensures best in events && Names(best, w)
    ensures forall b :: b in events && Names(b, w) ==> Strength(best) >= Strength(b)
  {
    if b :| b in events && Names(b, w) && Strength(b) == 3 {
      best := b;
    } else if b :| b in events && Names(b, w) && Strength(b) == 2 {
      best := b;
    } else if b :| b in events && Names(b, w) && Strength(b) == 1 {
      best := b;
    } else {
      best :| best in events && Names(best, w);
    }
  }

  /** Once the best-supported event naming the winner was handled, the winner is the head. */
  lemma {:induction false} HeadAfterBest(rules: Rules, start: Evidence, events: set<Event>, w: Hash, best: Event,
                                         order: seq<Event>)
    requires Holds(rules, start, events, w) && Wins(rules, start, events, w)
    requires best in events && Names(best, w)
    requires forall b :: b in events && Names(b, w) ==> Strength(best) >= Strength(b)
    requires Elements(order) <= events && best in order
    ensures After(rules, Slot(None, start), order).head == Some(w)
    decreases |order|
  {
    var front, x := order[..|order| - 1], order[|order| - 1];
    assert order == front + [x];
    ElementsConcat(front, [x]);
    assert x in Elements(order);
    HeadWasNamed(rules, start, events, front);
    var s := After(rules, Slot(None, start), front);
    if best in front {
      HeadAfterBest(rules, start, events, w, best, front);
      if Offers(x) && x.hash != w { assert !Takes(rules, s.evidence, x, w); }
    } else {
      assert x == best;
      if s.head.Some? && s.head.value != w {
        var a :| a in events && Names(a, s.head.value);
        assert Overtakes(rules, s.evidence, events, w, a.hash);
        var b :| b in events && Names(b, w) && Takes(rules, s.evidence, b, a.hash);
        StrongerTakes(rules, s.evidence, w, a.hash, best, b);
      }
    }
  }

  lemma {:induction false} Arrange<T>(s: set<T>) returns (r: seq<T>)
    ensures Elements(r) == s
  {
    r := [];
    if s != {} {
      var x :| x in s;
      var rest := Arrange(s - {x});
      r := [x] + rest;
      ElementsConcat([x], rest);
      ElementsSingle(x);
    }
  }

  /** Finding evidence first. */
  lemma Prepare(rules: Rules, start: Evidence, events: set<Event>, e: Evidence) returns (order: seq<Event>)
    requires Reachable(start, events, e)
    ensures Elements(order) <= events && After(rules, Slot(None, start), order) == Slot(None, e)
  {
    var cert := if e.cert == start.cert then [] else [CertFound(e.cert)];
    var root := if e.root == start.root then [] else [RootFound(e.root)];
    order := cert + root;
    AfterConcat(rules, Slot(None, start), cert, root);
    var s := After(rules, Slot(None, start), cert);
    assert After(rules, Slot(None, start), []) == Slot(None, start) && After(rules, s, []) == s;
    if cert != [] { AfterStep(rules, Slot(None, start), [], CertFound(e.cert)); assert [] + cert == cert; }
    if root != [] { AfterStep(rules, s, [], RootFound(e.root)); assert [] + root == root; }
  }

  /** Events that leave a head where it is. */
  lemma {:induction false} Unmoved(rules: Rules, s: Slot, d: Hash, list: seq<Event>)
    requires s.head == Some(d)
    requires forall x :: x in list ==> Offers(x) && (x.hash == d || !Takes(rules, s.evidence, x, d))
    ensures After(rules, s, list) == s
    decreases |list|
  {
    if list != [] {
      var front := list[..|list| - 1];
      assert list[|list| - 1] in list && forall x :: x in front ==> x in list;
      Unmoved(rules, s, d, front);
    }
  }

  /** A hash that is no longer named does not come back. */
  lemma {:induction false} Gone(rules: Rules, s: Slot, w: Hash, list: seq<Event>)
    requires s.head.Some? && s.head.value != w
    requires forall x :: x in list ==> !Names(x, w)
    ensures After(rules, s, list).head.Some? && After(rules, s, list).head.value != w
    decreases |list|
  {
    if list != [] {
      var front := list[..|list| - 1];
      assert list[|list| - 1] in list && forall x :: x in front ==> x in list;
      Gone(rules, s, w, front);
    }
  }

  /** An order of all the events with `first` and then the events naming `w` at its front. */
  lemma Arranged(events: set<Event>, w: Hash, first: seq<Event>) returns (own: seq<Event>, rest: seq<Event>)
    requires Elements(first) <= events
    ensures Elements(first + own + rest) == events
    ensures forall x :: x in own <==> x in events && Names(x, w)
    ensures forall x :: x in rest <==> x in events && !Names(x, w)
  {
    var mine := set x | x in events && Names(x, w);
    own := Arrange(mine);
    rest := Arrange(events - mine);
    ElementsConcat(first, own);
    ElementsConcat(first + own, rest);
    assert forall x :: x in own <==> x in Elements(own);
    assert forall x :: x in rest <==> x in Elements(rest);
  }

  /** If some event can displace the winner, some order ends elsewhere. */
  lemma OrderThatDisplaces(rules: Rules, start: Evidence, events: set<Event>, w: Hash, a: Event, e: Evidence)
    returns (order: seq<Event>)
    requires Named(events, w) && a in events && Offers(a) && a.hash != w && Reachable(start, events, e)
    requires Takes(rules, e, a, w)
    ensures Elements(order) == events && After(rules, Slot(None, start), order).head != Some(w)
  {
    var prepared := Prepare(rules, start, events, e);
    var b :| b in events && Names(b, w);
    var own, rest := Arranged(events, w, prepared);
    var opening := prepared + [b];
    AfterStep(rules, Slot(None, start), prepared, b);
    AfterConcat(rules, Slot(None, start), opening, own);
    Unmoved(rules, Slot(Some(w), e), w, own);
    AfterStep(rules, Slot(None, start), opening + own, a);
    AfterConcat(rules, Slot(None, start), opening + own + [a], rest);
    Gone(rules, Slot(Some(a.hash), e), w, rest);
    order := opening + own + [a] + rest;
    ListsAll(events, prepared, b, own, a, rest);
  }

  /** If no event naming the winner overtakes some other candidate, some order ends elsewhere. */
  lemma OrderThatMisses(rules: Rules, start: Evidence, events: set<Event>, w: Hash, a: Event, e: Evidence)
    returns (order: seq<Event>)
    requires a in events && Offers(a) && a.hash != w && Reachable(start, events, e)
    requires !Overtakes(rules, e, events, w, a.hash)
    ensures Elements(order) == events && After(rules, Slot(None, start), order).head != Some(w)
  {
    var prepared := Prepare(rules, start, events, e);
    var own, rest := Arranged(events, w, prepared);
    var opening := prepared + [a];
    AfterStep(rules, Slot(None, start), prepared, a);
    AfterConcat(rules, Slot(None, start), opening, own);
    Unmoved(rules, Slot(Some(a.hash), e), a.hash, own);
    AfterStep(rules, Slot(None, start), opening + own, a);
    AfterConcat(rules, Slot(None, start), opening + own + [a], rest);
    Gone(rules, Slot(Some(a.hash), e), w, rest);
    order := opening + own + [a] + rest;
    ListsAll(events, prepared, a, own, a, rest);
  }

  lemma ListsAll(events: set<Event>, prepared: seq<Event>, b: Event, own: seq<Event>, a: Event, rest: seq<Event>)
    requires Elements(prepared + own + rest) == events && a in events && b in events
    ensures Elements(prepared + [b] + own + [a] + rest) == events
  {
    forall x ensures x in prepared + [b] + own + [a] + rest <==> x in events {
      assert x in prepared + own + rest <==> x in Elements(prepared + own + rest);
    }
  }

  /** Every order of arrival, with any repetitions, ends on `w` exactly when `w` is announced or
      applied, no other candidate displaces it, and against every other candidate some event naming
      `w` prevails, whatever evidence is on record at that moment. */
  lemma ConvergenceExactly(rules: Rules, start: Evidence, events: set<Event>, w: Hash)
    ensures ConvergesTo(rules, start, events, w) <==>
              Named(events, w) && Holds(rules, start, events, w) && Wins(rules, start, events, w)
  {
    if Named(events, w) && Holds(rules, start, events, w) && Wins(rules, start, events, w) {
      var best := StrongestOf(events, w);
      forall order | Elements(order) == events ensures After(rules, Slot(None, start), order).head == Some(w) {
        assert best in Elements(order);
        HeadAfterBest(rules, start, events, w, best, order);
      }
    }
    if ConvergesTo(rules, start, events, w) {
      var some := Arrange(events);
      assert After(rules, Slot(None, start), some).head == Some(w);
      HeadWasNamed(rules, start, events, some);
      forall a, e | a in events && Offers(a) && a.hash != w && Reachable(start, events, e)
        ensures !Takes(rules, e, a, w) && Overtakes(rules, e, events, w, a.hash)
      {
        if Takes(rules, e, a, w) {
          var order := OrderThatDisplaces(rules, start, events, w, a, e);
          assert false;
        }
        if !Overtakes(rules, e, events, w, a.hash) {
          var order := OrderThatMisses(rules, start, events, w, a, e);
          assert false;
        }
      }
    }
  }

  /** Once an update is applied, the orders can only agree on it, and do so exactly when nothing
      displaces it. */
  lemma AppliedDecides(rules: Rules, start: Evidence, events: set<Event>, w: Hash, k: Hash)
    requires Applied(k) in events
    ensures ConvergesTo(rules, start, events, w) <==> k == w && Holds(rules, start, events, w)
  {
    ConvergenceExactly(rules, start, events, w);
    assert Reachable(start, events, start) && Names(Applied(k), k);
    if k == w {
      forall a, e | a in events && Offers(a) && a.hash != w && Reachable(start, events, e)
        ensures Overtakes(rules, e, events, w, a.hash)
      {
        assert Takes(rules, e, Applied(k), a.hash);
      }
    } else {
      assert Takes(rules, start, Applied(k), w);
    }
  }

  // ---------- settled evidence ----------

  ghost predicate Plain(list: seq<Event>) { forall x :: x in list ==> x.Announce? && x.hint.NoHint? }

  /** `w` is in the list and beats every other hash in it. */
  ghost predicate Best(rules: Rules, e: Evidence, list: seq<Event>, w: Hash) {
    && Announce(w, NoHint) in list
    && forall x :: x in list && x.Announce? && x.hash != w ==> Replaces(rules, e, w, NoHint, x.hash)
  }

  lemma {:induction false} BestExists(rules: Rules, e: Evidence, list: seq<Event>) returns (w: Hash)
    requires list != [] && Plain(list)
    ensures Best(rules, e, list, w)
    decreases |list|
  {
    var front, x := list[..|list| - 1], list[|list| - 1];
    assert list == front + [x] && x in list;
    assert forall y :: y in front ==> y in list;
    w := x.hash;
    if front != [] {
      var v := BestExists(rules, e, front);
      PreferenceIsTotal(LookedUp(rules, e, v), LookedUp(rules, e, w));
      if v == w || Replaces(rules, e, v, NoHint, w) {
        w := v;
      } else {
        forall y | y in list && y.hash != w ensures Replaces(rules, e, w, NoHint, y.hash) {
          if y.hash != v {
            PreferenceIsTransitive(LookedUp(rules, e, w), LookedUp(rules, e, v), LookedUp(rules, e, y.hash));
          }
        }
      }
    }
  }

  lemma {:induction false} BestIsKept(rules: Rules, s: Slot, list: seq<Event>, all: seq<Event>, w: Hash)
    requires Plain(all) && Best(rules, s.evidence, all, w) && (forall x :: x in list ==> x in all)
    requires s.head.Some? ==> Announce(s.head.value, NoHint) in all
    ensures var t := After(rules, s, list);
            && t.evidence == s.evidence && (t.head.Some? ==> Announce(t.head.value, NoHint) in all)
            && (Announce(w, NoHint) in list ==> t.head == Some(w))
    decreases |list|
  {
    if list != [] {
      var front, x := list[..|list| - 1], list[|list| - 1];
      assert list == front + [x] && x in list;
      assert forall y :: y in front ==> y in list;
      BestIsKept(rules, s, front, all, w);
      var t := After(rules, s, front);
      assert x == Announce(x.hash, NoHint);
      if t.head.Some? && t.head.value == w {
        PreferenceIsTotal(LookedUp(rules, s.evidence, x.hash), LookedUp(rules, s.evidence, w));
      }
    }
  }

  /** Once two nodes' evidence is settled and equal, hearing the same candidates again, in any
      order, brings them to the same head, whatever each had kept of those candidates before. */
  lemma NodesConverge(rules: Rules, s: Slot, t: Slot, a: seq<Event>, b: seq<Event>)
    requires s.evidence == t.evidence && a != [] && Plain(a) && Elements(a) == Elements(b)
    requires s.head.Some? ==> Announce(s.head.value, NoHint) in a
    requires t.head.Some? ==> Announce(t.head.value, NoHint) in b
    ensures After(rules, s, a) == After(rules, t, b)
  {
    var w := BestExists(rules, s.evidence, a);
    assert forall x :: x in a <==> x in Elements(a);
    assert forall x :: x in b <==> x in Elements(b);
    BestIsKept(rules, s, a, a, w);
    BestIsKept(rules, t, b, a, w);
  }

  // ---------- evidence that comes late ----------

  /** Evidence found for the stored hash protects it from then on: only another certificate, in
      the record or named by a competitor, can move the head. */
  lemma {:induction false} CertifiedHeadStays(rules: Rules, s: Slot, h: Hash, events: seq<Event>)
    requires s.head == Some(h) && s.evidence.cert == Some(h)
    requires forall x :: x in events ==> match x
               case Announce(k, hint) => hint != Hinted(Some(k))
               case Applied(k) => k == h
               case CertFound(cert) => cert == Some(h)
               case RootFound(_) => true
    ensures After(rules, s, events).head == Some(h) && After(rules, s, events).evidence.cert == Some(h)
    decreases |events|
  {
    if events != [] {
      var front := events[..|events| - 1];
      assert events[|events| - 1] in events && forall x :: x in front ==> x in events;
      CertifiedHeadStays(rules, s, h, front);
    }
  }

  /** Evidence found after its hash was displaced does not bring it back: two nodes that hear the
      same two candidates and the same certificate part, unless the candidate is announced again. */
  lemma LateEvidenceDiverges(rules: Rules, h: Hash, k: Hash)
    requires Replaces(rules, Evidence(None, None), k, NoHint, h)
    ensures var first, second, cert := Announce(h, NoHint), Announce(k, NoHint), CertFound(Some(h));
            var start := Slot(None, Evidence(None, None));
            && After(rules, start, [first, second, cert]).head == Some(k)
            && After(rules, start, [first, cert, second]).head == Some(h)
            && After(rules, start, [first, second, cert, first]).head == Some(h)
  {
    var first, second, cert := Announce(h, NoHint), Announce(k, NoHint), CertFound(Some(h));
    var start := Slot(None, Evidence(None, None));
    AfterThree(rules, start, first, second, cert);
    AfterThree(rules, start, first, cert, second);
    assert [first, second, cert, first] == [first, second, cert] + [first];
    AfterStep(rules, start, [first, second, cert], first);
  }
}
