/** A node outside the committee: wait for agreeing outputs, then take a matching broadcast. */
module Observer {
  import opened Binary
  import opened Sorting
  import opened Ledger
  import Majority
  import opened Phases
  import opened Network
  import opened Collectors

  function Addresses(outputs: map<Id, Output>): map<Id, Address> { map id | id in outputs :: outputs[id].address }

  function ObserverRequired(committee: seq<Id>): nat {
    if committee == [] then 1 else |committee| / 2 + 1
  }

  ghost predicate Quorate(c: Majority.Reports, required: nat, a: Octets) {
    a in c.Values && |Majority.Supporters(c, a)| >= required
  }

  /** The smallest address named by at least `required` producers. */
  ghost predicate IsFirstQuorate(c: Majority.Reports, required: nat, a: Octets) {
    Quorate(c, required, a) && forall b :: b in c.Values && Quorate(c, required, b) ==> Leq(a, b)
  }

  ghost function AgreedAddress(c: Majority.Reports, required: nat): (a: Option<Octets>)
    ensures a.Some? ==> IsFirstQuorate(c, required, a.value)
  {
    if exists a :: IsFirstQuorate(c, required, a) then var a :| IsFirstQuorate(c, required, a); Some(a) else None
  }

  lemma FirstQuorateUnique(c: Majority.Reports, required: nat, a: Octets)
    requires IsFirstQuorate(c, required, a)
    ensures AgreedAddress(c, required) == Some(a)
  {
    var b := AgreedAddress(c, required).value;
    LeqAntisymmetric(a, b);
  }

  /** The first broadcast whose update hash starts with the prefix. */
  function FirstMatch(env: Env, broadcasts: seq<LsuBroadcast>, prefix: Octets): (r: Option<LedgerUpdate>)
    ensures r.Some? ==> UpdateHash(env, r.value)[..20] == prefix
  {
    if broadcasts == [] then None
    else if UpdateHash(env, broadcasts[0].lsu)[..20] == prefix then
      Some(broadcasts[0].lsu)
    else FirstMatch(env, broadcasts[1..], prefix)
  }

  ghost function Verdict(env: Env, committee: seq<Id>, outputs: map<Id, Output>,
                         broadcasts: seq<LsuBroadcast>): Option<LedgerUpdate> {
    match AgreedAddress(Addresses(outputs), ObserverRequired(committee))
    case None => None
    case Some(a) => if a[..1] != [1] then None else FirstMatch(env, broadcasts, a[1..])
  }

  ghost function Observed(env: Env, committee: seq<Id>, cycle: U64, forOutputs: seq<Envelope>,
                          forUpdates: seq<Envelope>): Option<LedgerUpdate> {
    Verdict(env, committee, Collected(OutputReader(), cycle, forOutputs), Heard(UpdateReader(), cycle, forUpdates))
  }

  /** The number of outputs to wait for: one without a committee, else the least strict majority of
      the list. */
  lemma RequiredIsMajority(committee: seq<Id>)
    ensures var r := ObserverRequired(committee);
            if committee == [] then r == 1 else 2 * r > |committee| && 2 * (r - 1) <= |committee|
  {}

  predicate Matches(env: Env, b: LsuBroadcast, prefix: Octets) { UpdateHash(env, b.lsu)[..20] == prefix }

  ghost predicate IsFirstMatch(env: Env, broadcasts: seq<LsuBroadcast>, prefix: Octets, i: int) {
    && 0 <= i < |broadcasts| && Matches(env, broadcasts[i], prefix)
    && forall j :: 0 <= j < i ==> !Matches(env, broadcasts[j], prefix)
  }

  /** The update taken is that of the first broadcast with the prefix, and there is one unless no
      broadcast has it. */
  lemma {:induction false} FirstMatchIsFirst(env: Env, broadcasts: seq<LsuBroadcast>, prefix: Octets, i: int)
    requires IsFirstMatch(env, broadcasts, prefix, i)
    ensures FirstMatch(env, broadcasts, prefix) == Some(broadcasts[i].lsu)
    decreases |broadcasts|
  {
    if i > 0 {
      var tail := broadcasts[1..];
      assert !Matches(env, broadcasts[0], prefix);
      forall j | 0 <= j < i - 1 ensures !Matches(env, tail[j], prefix) { assert tail[j] == broadcasts[j + 1]; }
      FirstMatchIsFirst(env, tail, prefix, i - 1);
    } else {
      assert Matches(env, broadcasts[0], prefix);
    }
  }

  lemma {:induction false} NoMatchIsNone(env: Env, broadcasts: seq<LsuBroadcast>, prefix: Octets)
    requires forall j :: 0 <= j < |broadcasts| ==> !Matches(env, broadcasts[j], prefix)
    ensures FirstMatch(env, broadcasts, prefix) == None
    decreases |broadcasts|
  {
    if broadcasts != [] {
      assert !Matches(env, broadcasts[0], prefix);
      var tail := broadcasts[1..];
      forall j | 0 <= j < |tail| ensures !Matches(env, tail[j], prefix) { assert tail[j] == broadcasts[j + 1]; }
      NoMatchIsNone(env, tail, prefix);
    }
  }

  /** Of two addresses with enough producers the smaller one is taken. */
  lemma SmallerAddressTaken(c: Majority.Reports, required: nat, a: Octets, b: Octets)
    requires Quorate(c, required, a) && Less(a, b)
    ensures AgreedAddress(c, required) != Some(b)
  {
    if AgreedAddress(c, required) == Some(b) { LeqAntisymmetric(a, b); }
  }

  // ---------- the loops ----------

  lemma NoneQuorate(c: Majority.Reports, required: nat)
    requires |c| < required
    ensures AgreedAddress(c, required).None?
  {
    var a := AgreedAddress(c, required);
    if a.Some? { Majority.SupportersDisjoint(c, a.value, a.value); }
  }

  /** Addresses are visited in ascending order; the first with enough producers is taken. */
  method FindQuorate(c: Majority.Reports, required: nat) returns (a: Option<Octets>)
    ensures a == AgreedAddress(c, required)
  {
    var groups := Majority.GroupByDigest(c);
    var keys := Majority.SortedKeys(groups.Keys);
    assert forall k :: k in keys <==> k in Elements(keys);
    for i := 0 to |keys|
      invariant forall j :: 0 <= j < i ==> !Quorate(c, required, keys[j])
    {
      assert keys[i] in keys;
      DistinctCardinality(groups[keys[i]]);
      if |groups[keys[i]]| >= required {
        assert IsFirstQuorate(c, required, keys[i]) by {
          forall b | b in c.Values && Quorate(c, required, b) ensures Leq(keys[i], b) {
            var j :| 0 <= j < |keys| && keys[j] == b;
            LeqTotal(b, b);
            if j > i { assert Less(keys[i], b); }
          }
        }
        FirstQuorateUnique(c, required, keys[i]);
        return Some(keys[i]);
      }
    }
    a := None;
    assert forall b :: b in c.Values <==> b in keys;
  }

  method Decide(env: Env, committee: seq<Id>, outputs: map<Id, Output>, broadcasts: seq<LsuBroadcast>)
    returns (r: Option<LedgerUpdate>)
    ensures r == Verdict(env, committee, outputs, broadcasts)
  {
    var c := Addresses(outputs);
    var required := ObserverRequired(committee);
    assert c.Keys == outputs.Keys;
    if |outputs| < required {
      NoneQuorate(c, required);
      return None;
    }
    var agreed := FindQuorate(c, required);
    if agreed.None? { return None; }
    if agreed.value[..1] != [1] { return None; }
    var prefix := agreed.value[1..];
    for i := 0 to |broadcasts|
      invariant FirstMatch(env, broadcasts, prefix) == FirstMatch(env, broadcasts[i..], prefix)
    {
      if UpdateHash(env, broadcasts[i].lsu)[..20] == prefix { return Some(broadcasts[i].lsu); }
    }
    r := None;
  }
}
