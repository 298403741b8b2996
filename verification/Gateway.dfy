/**
 The gateway lifecycle of src/gateway.rs: iptables chains as sequences of rules,
 state files, and IPv4 forwarding. Any command may fail; a schedule says which.
 */
module Gateways {
  import opened Wrappers

  datatype Location = MangleForward | NatPostrouting | FilterForward

  datatype Spec =
    | Mss(inbound: string, outbound: string, mss: nat)
    | Masquerade(outbound: string)
    | Accept(inbound: string, outbound: string)
    | AcceptEstablished(inbound: string, outbound: string)
    | OtherSpec(text: string)

  /** A rule as it is listed: what it matches and does, and its comment. */
  datatype Rule = Rule(spec: Spec, comment: Option<string>)

  datatype PlacedRule = PlacedRule(location: Location, rule: Rule)

  datatype Chains = Chains(mangleForward: seq<Rule>, natPostrouting: seq<Rule>, filterForward: seq<Rule>) {
    function At(loc: Location): seq<Rule> {
      match loc
      case MangleForward => mangleForward
      case NatPostrouting => natPostrouting
      case FilterForward => filterForward
    }

    function With(loc: Location, chain: seq<Rule>): Chains {
      match loc
      case MangleForward => this.(mangleForward := chain)
      case NatPostrouting => this.(natPostrouting := chain)
      case FilterForward => this.(filterForward := chain)
    }
  }

  /** `torn` records that a state file was left half-written because its cleanup failed too. */
  datatype Machine = Machine(
    chains: Chains, forwarding: string, markers: set<string>, original: Option<string>, torn: bool)

  datatype GatewayError = CommandFailed | TooManyRules

  const OWNED_LOCATIONS: seq<Location> := [MangleForward, NatPostrouting, FilterForward]
  const REMOVAL_LIMIT: nat := 128

  // ---------------------------------------------------------------------------
  // Rules by owner.
  // ---------------------------------------------------------------------------

  predicate OwnedBy(rule: Rule, owner: string) {
    rule.comment == Some(owner)
  }

  /** The rules that `owner` owns, or those that it does not, in order. */
  function Select(chain: seq<Rule>, owner: string, mine: bool): seq<Rule> {
    if chain == [] then []
    else if OwnedBy(chain[0], owner) == mine then [chain[0]] + Select(chain[1..], owner, mine)
    else Select(chain[1..], owner, mine)
  }

  lemma {:induction false} SelectSum(a: seq<Rule>, b: seq<Rule>, owner: string, mine: bool)
    ensures Select(a + b, owner, mine) == Select(a, owner, mine) + Select(b, owner, mine)
  {
    if a == [] {
      assert a + b == b;
    } else {
      SelectSum(a[1..], b, owner, mine);
      assert (a + b)[1..] == a[1..] + b;
    }
  }

  lemma SelectOne(rule: Rule, owner: string, mine: bool)
    ensures Select([rule], owner, mine) == if OwnedBy(rule, owner) == mine then [rule] else []
  {
    assert Select([rule][1..], owner, mine) == [];
  }

  function RemoveAt(chain: seq<Rule>, i: nat): seq<Rule>
    requires i < |chain|
  {
    chain[..i] + chain[i + 1..]
  }

  lemma SelectRemoved(chain: seq<Rule>, i: nat, owner: string, mine: bool)
    requires i < |chain|
    ensures Select(chain, owner, mine) ==
            Select(chain[..i], owner, mine)
            + (if OwnedBy(chain[i], owner) == mine then [chain[i]] else [])
            + Select(chain[i + 1..], owner, mine)
    ensures Select(RemoveAt(chain, i), owner, mine) ==
        Select(chain[..i], owner, mine) + Select(chain[i + 1..], owner, mine)
  {
    assert chain == chain[..i] + [chain[i]] + chain[i + 1..];
    SelectSum(chain[..i] + [chain[i]], chain[i + 1..], owner, mine);
    SelectSum(chain[..i], [chain[i]], owner, mine);
    SelectOne(chain[i], owner, mine);
    SelectSum(chain[..i], chain[i + 1..], owner, mine);
  }

  lemma SelectWithout(chain: seq<Rule>, i: nat, owner: string)
    requires i < |chain| && OwnedBy(chain[i], owner)
    ensures Select(RemoveAt(chain, i), owner, false) == Select(chain, owner, false)
    ensures |Select(RemoveAt(chain, i), owner, true)| == |Select(chain, owner, true)| - 1
    ensures multiset(Select(RemoveAt(chain, i), owner, true)) <= multiset(Select(chain, owner, true))
  {
    SelectRemoved(chain, i, owner, false);
    SelectRemoved(chain, i, owner, true);
  }

  lemma SelectAppend(chain: seq<Rule>, rule: Rule, owner: string)
    requires OwnedBy(rule, owner)
    ensures Select(chain + [rule], owner, false) == Select(chain, owner, false)
    ensures Select(chain + [rule], owner, true) == Select(chain, owner, true) + [rule]
  {
    SelectSum(chain, [rule], owner, false);
    SelectSum(chain, [rule], owner, true);
    SelectOne(rule, owner, false);
    SelectOne(rule, owner, true);
  }

  lemma {:induction false} SelectMembers(chain: seq<Rule>, owner: string, mine: bool, rule: Rule)
    ensures rule in Select(chain, owner, mine) <==> rule in chain && OwnedBy(rule, owner) == mine
  {
    if chain != [] {
      SelectMembers(chain[1..], owner, mine, rule);
    }
  }

  /** Position of the first rule of this owner, or the length. */
  function FirstOwned(chain: seq<Rule>, owner: string): (i: nat)
    ensures i <= |chain| && (i < |chain| ==> OwnedBy(chain[i], owner))
    ensures i == |chain| <==> Select(chain, owner, true) == []
  {
    if chain == [] || OwnedBy(chain[0], owner) then 0 else 1 + FirstOwned(chain[1..], owner)
  }

  function FirstEqual(chain: seq<Rule>, rule: Rule): (i: nat)
    ensures i <= |chain| && (i < |chain| ==> chain[i] == rule)
    ensures i == |chain| <==> rule !in chain
  {
    if chain == [] || chain[0] == rule then 0 else 1 + FirstEqual(chain[1..], rule)
  }

  /** Nobody else's rule was touched, anywhere. */
  ghost predicate OthersUntouched(before: Chains, after: Chains, owner: string) {
    && Select(after.mangleForward, owner, false) == Select(before.mangleForward, owner, false)
    && Select(after.natPostrouting, owner, false) == Select(before.natPostrouting, owner, false)
    && Select(after.filterForward, owner, false) == Select(before.filterForward, owner, false)
  }

  function Owned(chains: Chains, loc: Location, owner: string): seq<Rule>
  {
    Select(chains.At(loc), owner, true)
  }

  predicate NoneOwned(chains: Chains, owner: string) {
    Owned(chains, MangleForward, owner) == [] && Owned(chains, NatPostrouting, owner) == []
    && Owned(chains, FilterForward, owner) == []
  }

  /** Every rule that is owned now was owned before, at least as often. */
  ghost predicate NothingNew(before: Chains, after: Chains, owner: string) {
    && multiset(Owned(after, MangleForward, owner)) <= multiset(Owned(before, MangleForward, owner))
    && multiset(Owned(after, NatPostrouting, owner)) <= multiset(Owned(before, NatPostrouting, owner))
    && multiset(Owned(after, FilterForward, owner)) <= multiset(Owned(before, FilterForward, owner))
  }

  ghost predicate NoRuleLeftBehind(before: Chains, after: Chains, owner: string) {
    NoneOwned(after, owner) || NothingNew(before, after, owner)
  }

  function OwnedTotal(chains: Chains, owner: string): nat
  {
    |Owned(chains, MangleForward, owner)|
    + |Owned(chains, NatPostrouting, owner)|
    + |Owned(chains, FilterForward, owner)|
  }

  /** What an outcome costs: one fault if it is not a success. */
  function Fault(ok: bool): nat {
    if ok then 0 else 1
  }

  // ---------------------------------------------------------------------------
  // The machine that commands run on.
  // ---------------------------------------------------------------------------

  class Host {
    var chains: Chains
    var forwarding: string
    var markers: set<string>
    var original: Option<string>
    var torn: bool
    /** Which of the coming commands fail; none after the end. */
    var faults: seq<bool>

    function View(): Machine
      reads this
    {
      Machine(chains, forwarding, markers, original, torn)
    }

    /** How many of the coming commands fail. */
    ghost function Faults(): nat
      reads this`faults
    {
      multiset(faults)[true]
    }

    method Fails() returns (failed: bool)
      modifies this`faults
      ensures Faults() + Fault(!failed) <= old(Faults())
    {
      failed := false;
      if faults != [] {
        assert faults == [faults[0]] + faults[1..];
        failed := faults[0];
        faults := faults[1..];
      }
    }

    /** `iptables -S` */
    method List(loc: Location) returns (result: Result<seq<Rule>, GatewayError>)
      modifies this`faults
      ensures result.Ok? ==> result.value == chains.At(loc)
      ensures Faults() + Fault(result.Ok?) <= old(Faults())
    {
      var failed := Fails();
      result := if failed then Err(CommandFailed) else Ok(chains.At(loc));
    }

    /** `iptables -C` */
    method Exists(placed: PlacedRule) returns (result: Result<bool, GatewayError>)
      modifies this`faults
      ensures result.Ok? ==> result.value == (placed.rule in chains.At(placed.location))
      ensures Faults() + Fault(result.Ok?) <= old(Faults())
    {
      var failed := Fails();
      result := if failed then Err(CommandFailed) else Ok(placed.rule in chains.At(placed.location));
    }

    /** `iptables -A` */
    method Append(placed: PlacedRule) returns (ok: bool)
      modifies this`faults, this`chains
      ensures chains == if ok then
                          old(chains).With(placed.location, old(chains).At(placed.location) + [placed.rule])
                        else old(chains)
      ensures Faults() + Fault(ok) <= old(Faults())
    {
      var failed := Fails();
      ok := !failed;
      if ok {
        chains := chains.With(placed.location, chains.At(placed.location) + [placed.rule]);
      }
    }

    /** `iptables -D` with a rule number, counted from zero here. */
    method DeleteNumber(loc: Location, i: nat) returns (ok: bool)
      requires i < |chains.At(loc)|
      modifies this`faults, this`chains
      ensures chains == if ok then old(chains).With(loc, RemoveAt(old(chains).At(loc), i)) else old(chains)
      ensures Faults() + Fault(ok) <= old(Faults())
    {
      var failed := Fails();
      ok := !failed;
      if ok {
        chains := chains.With(loc, RemoveAt(chains.At(loc), i));
      }
    }

    /** `iptables -D` with a rule: the first equal one goes, and it is an error if there is none. */
    method DeleteOnce(placed: PlacedRule) returns (ok: bool)
      modifies this`faults, this`chains
      ensures ok ==> placed.rule in old(chains).At(placed.location)
      ensures chains == if ok then
                          old(chains).With(placed.location,
                            RemoveAt(old(chains).At(placed.location),
                                     FirstEqual(old(chains).At(placed.location), placed.rule)))
                        else old(chains)
      ensures Faults() + Fault(ok || placed.rule !in old(chains).At(placed.location)) <= old(Faults())
    {
      var failed := Fails();
      var chain := chains.At(placed.location);
      ok := !failed && placed.rule in chain;
      if ok {
        chains := chains.With(placed.location, RemoveAt(chain, FirstEqual(chain, placed.rule)));
      }
    }

    /** `sysctl -w` */
    method WriteForwarding(value: string) returns (ok: bool)
      modifies this`faults, this`forwarding
      ensures forwarding == if ok then value else old(forwarding)
      ensures Faults() + Fault(ok) <= old(Faults())
    {
      var failed := Fails();
      ok := !failed;
      if ok {
        forwarding := value;
      }
    }

    /**
     A file created only if it is new: creating, writing and cleaning up may each fail, and a
     failed write may stop before the value or after it.
     */
    method RecordOriginal(value: string) returns (result: Result<bool, GatewayError>)
      modifies this`faults, this`original, this`torn
      ensures match result
              case Ok(created) => created == old(original).None? && torn == old(torn)
                                  && original == (if created then Some(value) else old(original))
              case Err(_) => old(original).None? && original in {None, Some(""), Some(value)}
                             && (torn || (original == None && torn == old(torn)))
      ensures old(torn) ==> torn
      ensures Faults() + Fault(result.Ok?) <= old(Faults())
      ensures old(Faults()) <= 1 && result.Err? ==> original == None && torn == old(torn)
    {
      if original.Some? {
        return Ok(false);
      }
      var cannotCreate := Fails();
      if cannotCreate {
        return Err(CommandFailed);
      }
      original := Some("");
      var cannotWrite := Fails();
      if cannotWrite {
        if * {
          original := Some(value);
        }
        var cannotRemove := Fails();
        if cannotRemove {
          torn := true;
        } else {
          original := None;
        }
        return Err(CommandFailed);
      }
      original := Some(value);
      result := Ok(true);
    }

    /** The marker of one gateway: created if it is new, otherwise rewritten. */
    method RecordMarker(name: string) returns (result: Result<bool, GatewayError>)
      modifies this`faults, this`markers, this`torn
      ensures match result
              case Ok(created) =>
                created == (name !in old(markers)) && markers == old(markers) + {name} && torn == old(torn)
              case Err(_) => torn || (markers == old(markers) && torn == old(torn))
      ensures markers - {name} == old(markers) - {name} && old(markers) <= markers
      ensures old(torn) ==> torn
      ensures Faults() + Fault(result.Ok?) <= old(Faults())
      ensures old(Faults()) <= 1 && result.Err? ==> markers == old(markers) && torn == old(torn)
    {
      if name in markers {
        var cannotRewrite := Fails();
        return if cannotRewrite then Err(CommandFailed) else Ok(false);
      }
      var cannotCreate := Fails();
      if cannotCreate {
        return Err(CommandFailed);
      }
      var before := markers;
      markers := markers + {name};
      var cannotWrite := Fails();
      if cannotWrite {
        var cannotRemove := Fails();
        if cannotRemove {
          torn := true;
        } else {
          markers := before;
        }
        return Err(CommandFailed);
      }
      result := Ok(true);
    }

    method RemoveMarker(name: string) returns (ok: bool)
      modifies this`faults, this`markers
      ensures markers == if ok then old(markers) - {name} else old(markers)
      ensures Faults() + Fault(ok) <= old(Faults())
    {
      var failed := Fails();
      ok := !failed;
      if ok {
        markers := markers - {name};
      }
    }

    method RemoveOriginal() returns (ok: bool)
      modifies this`faults, this`original
      ensures original == if ok then None else old(original)
      ensures Faults() + Fault(ok) <= old(Faults())
    {
      var failed := Fails();
      ok := !failed;
      if ok {
        original := None;
      }
    }

    method HasMarkers() returns (result: Result<bool, GatewayError>)
      modifies this`faults
      ensures result.Ok? ==> result.value == (markers != {})
      ensures Faults() + Fault(result.Ok?) <= old(Faults())
    {
      var failed := Fails();
      result := if failed then Err(CommandFailed) else Ok(markers != {});
    }
  }

  // ---------------------------------------------------------------------------
  // The plan of one gateway.
  // ---------------------------------------------------------------------------

  datatype Plan = Plan(lan: string, tunnel: string, mss: nat) {
    /** The configuration refuses a gateway whose two interfaces are the same. */
    predicate Valid() {
      lan != tunnel
    }

    function Owner(): string {
      "hushwire-gateway:" + tunnel
    }

    function Rules(): seq<PlacedRule> {
      var tag := Some(Owner());
      [PlacedRule(MangleForward, Rule(Mss(lan, tunnel, mss), tag)),
       PlacedRule(MangleForward, Rule(Mss(tunnel, lan, mss), tag)),
       PlacedRule(NatPostrouting, Rule(Masquerade(tunnel), tag)),
       PlacedRule(FilterForward, Rule(Accept(lan, tunnel), tag)),
       PlacedRule(FilterForward, Rule(AcceptEstablished(tunnel, lan), tag))]
    }

    /** What the plan wants in one chain. */
    function RulesAt(loc: Location): seq<Rule> {
      var tag := Some(Owner());
      match loc
      case MangleForward => [Rule(Mss(lan, tunnel, mss), tag), Rule(Mss(tunnel, lan, mss), tag)]
      case NatPostrouting => [Rule(Masquerade(tunnel), tag)]
      case FilterForward => [Rule(Accept(lan, tunnel), tag), Rule(AcceptEstablished(tunnel, lan), tag)]
    }

    /** What the first `i` rules of the plan put in one chain. */
    function AddedAt(i: nat, loc: Location): seq<Rule> {
      var first := match loc case MangleForward => 0 case NatPostrouting => 2 case FilterForward => 3;
      var all := RulesAt(loc);
      if i <= first then [] else if i - first >= |all| then all else all[..i - first]
    }
  }

  lemma RulesArePlaced(plan: Plan, placed: PlacedRule)
    ensures placed in plan.Rules() <==> placed.rule in plan.RulesAt(placed.location)
  {}

  predicate AllThere(chains: Chains, plan: Plan) {
    forall r :: r in plan.Rules() ==> r.rule in chains.At(r.location)
  }

  /** Exactly the plan's five rules are owned by it, each once. */
  ghost predicate ExactlyOnce(chains: Chains, plan: Plan) {
    && multiset(Owned(chains, MangleForward, plan.Owner())) == multiset(plan.RulesAt(MangleForward))
    && multiset(Owned(chains, NatPostrouting, plan.Owner())) == multiset(plan.RulesAt(NatPostrouting))
    && multiset(Owned(chains, FilterForward, plan.Owner())) == multiset(plan.RulesAt(FilterForward))
  }

  /** The rules owned by the plan are its first `i`, in order. */
  ghost predicate FirstRulesOwned(chains: Chains, plan: Plan, i: nat) {
    && Owned(chains, MangleForward, plan.Owner()) == plan.AddedAt(i, MangleForward)
    && Owned(chains, NatPostrouting, plan.Owner()) == plan.AddedAt(i, NatPostrouting)
    && Owned(chains, FilterForward, plan.Owner()) == plan.AddedAt(i, FilterForward)
  }

  ghost predicate FirstRulesAdded(chains: Chains, plan: Plan, added: seq<PlacedRule>) {
    |added| <= 5 && added == plan.Rules()[..|added|] && FirstRulesOwned(chains, plan, |added|)
  }

  /** A rollback in which nothing more fails leaves everything as it was, except that owned rules may be gone. */
  ghost predicate RolledBack(plan: Plan, before: Machine, after: Machine) {
    after == before.(chains := after.chains) && NoRuleLeftBehind(before.chains, after.chains, plan.Owner())
  }

  /** What an apply does to the rules, whether it succeeds or is rolled back. */
  ghost predicate RulesAfterApply(plan: Plan, before: Chains, after: Chains, ok: bool) {
    && OthersUntouched(before, after, plan.Owner())
    && (ExactlyOnce(before, plan) ==> after == before)
    && (ok ==> ExactlyOnce(after, plan))
  }

  /** And to the state files and forwarding. */
  predicate FilesAfterApply(plan: Plan, before: Machine, after: Machine, ok: bool) {
    && (before.torn ==> after.torn)
    && after.markers - {plan.tunnel} == before.markers - {plan.tunnel} && before.markers <= after.markers
    && (if ok then
          && after.forwarding == "1"
          && after.markers == before.markers + {plan.tunnel}
          && after.original == (if before.original.Some? then before.original else Some(before.forwarding))
        else
          && after.forwarding == before.forwarding
          && (after.original == before.original
              || (before.original.None? && after.original in {Some(""), Some(before.forwarding)}))
          && (!after.torn ==>
                || after.original == before.original
                || (before.original.None? && after.original == Some(before.forwarding)))
          && (!after.torn && after.original.None? ==> after.markers == before.markers))
  }

  ghost predicate ApplyPost(plan: Plan, before: Machine, after: Machine, ok: bool) {
    RulesAfterApply(plan, before.chains, after.chains, ok) && FilesAfterApply(plan, before, after, ok)
  }

  /** What a removal does, whether it succeeds or stops half way. */
  ghost predicate RemovePost(plan: Plan, before: Machine, after: Machine, ok: bool) {
    && OthersUntouched(before.chains, after.chains, plan.Owner())
    && after.torn == before.torn
    && (after.markers == before.markers || after.markers == before.markers - {plan.tunnel})
    && (if ok then
          && NoneOwned(after.chains, plan.Owner())
          && after.markers == before.markers - {plan.tunnel}
          && if before.original.Some? && after.markers == {} then
               && after.original == None
               && after.forwarding ==
                   (if before.original.value in {"0", "1"} then before.original.value else before.forwarding)
             else
               after.original == before.original && after.forwarding == before.forwarding
        else
          && after.original == before.original
          && (after.forwarding == before.forwarding
              || (before.original == Some(after.forwarding) && after.forwarding in {"0", "1"})))
  }

  class Gateway {
    const plan: Plan

    constructor (plan: Plan)
      ensures this.plan == plan
    {
      this.plan := plan;
    }

    method CountOwnedRules(host: Host) returns (result: Result<nat, GatewayError>)
      modifies host`faults
      ensures result.Ok? ==> result.value == OwnedTotal(host.chains, plan.Owner())
      ensures host.Faults() + Fault(result.Ok?) <= old(host.Faults())
    {
      var count := 0;
      for n := 0 to |OWNED_LOCATIONS|
        invariant count == (if n > 0 then |Owned(host.chains, MangleForward, plan.Owner())| else 0)
                         + (if n > 1 then |Owned(host.chains, NatPostrouting, plan.Owner())| else 0)
                         + (if n > 2 then |Owned(host.chains, FilterForward, plan.Owner())| else 0)
        invariant host.Faults() <= old(host.Faults())
      {
        var listed := host.List(OWNED_LOCATIONS[n]);
        if listed.Err? {
          return Err(listed.error);
        }
        count := count + |Select(listed.value, plan.Owner(), true)|;
      }
      result := Ok(count);
    }

    /** Delete owned rules one by one, always the first that is listed; give up after too many. */
    method DeleteOwnedRules(host: Host) returns (result: Result<nat, GatewayError>)
      modifies host`faults, host`chains
      ensures OthersUntouched(old(host.chains), host.chains, plan.Owner())
      ensures result.Ok? ==> NoneOwned(host.chains, plan.Owner())
      ensures OwnedTotal(old(host.chains), plan.Owner()) <= REMOVAL_LIMIT ==>
          host.Faults() + Fault(result.Ok?) <= old(host.Faults())
      ensures NothingNew(old(host.chains), host.chains, plan.Owner())
      ensures result.Ok? ==> result.value == OwnedTotal(old(host.chains), plan.Owner()) <= 128
    {
      var removed: nat := 0;
      for n := 0 to |OWNED_LOCATIONS|
        invariant OthersUntouched(old(host.chains), host.chains, plan.Owner())
        invariant n > 0 ==> Owned(host.chains, MangleForward, plan.Owner()) == []
        invariant n > 1 ==> Owned(host.chains, NatPostrouting, plan.Owner()) == []
        invariant n > 2 ==> Owned(host.chains, FilterForward, plan.Owner()) == []
        invariant removed + OwnedTotal(host.chains, plan.Owner()) == OwnedTotal(old(host.chains), plan.Owner())
        invariant removed <= REMOVAL_LIMIT
        invariant host.Faults() <= old(host.Faults())
        invariant NothingNew(old(host.chains), host.chains, plan.Owner())
      {
        var cleared := ClearChain(host, OWNED_LOCATIONS[n], removed);
        if cleared.Err? {
          return Err(cleared.error);
        }
        removed := cleared.value;
      }
      result := Ok(removed);
    }

    method ClearChain(host: Host, loc: Location, before: nat) returns (result: Result<nat, GatewayError>)
      requires before <= REMOVAL_LIMIT
      modifies host`faults, host`chains
      ensures host.chains == old(host.chains).With(loc, host.chains.At(loc))
      ensures Select(host.chains.At(loc), plan.Owner(), false) == Select(old(host.chains).At(loc), plan.Owner(), false)
      ensures result.Ok? ==>
                && Select(host.chains.At(loc), plan.Owner(), true) == []
                && result.value == before + |Select(old(host.chains).At(loc), plan.Owner(), true)| <= REMOVAL_LIMIT
      ensures before + |Select(old(host.chains).At(loc), plan.Owner(), true)| <= REMOVAL_LIMIT ==>
                host.Faults() + Fault(result.Ok?) <= old(host.Faults())
      ensures multiset(Select(host.chains.At(loc), plan.Owner(), true)) <=
              multiset(Select(old(host.chains).At(loc), plan.Owner(), true))
    {
      var removed := before;
      while true
        invariant host.chains == old(host.chains).With(loc, host.chains.At(loc))
        invariant Select(host.chains.At(loc), plan.Owner(), false) ==
            Select(old(host.chains).At(loc), plan.Owner(), false)
        invariant removed + |Select(host.chains.At(loc), plan.Owner(), true)| ==
            before + |Select(old(host.chains).At(loc), plan.Owner(), true)|
        invariant removed <= REMOVAL_LIMIT
        invariant host.Faults() <= old(host.Faults())
        invariant multiset(Select(host.chains.At(loc), plan.Owner(), true)) <=
                  multiset(Select(old(host.chains).At(loc), plan.Owner(), true))
        decreases |Select(host.chains.At(loc), plan.Owner(), true)|
      {
        var listed := host.List(loc);
        if listed.Err? {
          return Err(listed.error);
        }
        var i := FirstOwned(listed.value, plan.Owner());
        if i == |listed.value| {
          return Ok(removed);
        }
        SelectWithout(host.chains.At(loc), i, plan.Owner());
        var deleted := host.DeleteNumber(loc, i);
        if !deleted {
          return Err(CommandFailed);
        }
        removed := removed + 1;
        if removed > REMOVAL_LIMIT {
          return Err(TooManyRules);
        }
      }
    }

    method AllPresent(host: Host) returns (result: Result<bool, GatewayError>)
      modifies host`faults
      ensures result.Ok? ==> result.value == AllThere(host.chains, plan)
      ensures host.Faults() + Fault(result.Ok?) <= old(host.Faults())
    {
      var rules := plan.Rules();
      var all := true;
      for i := 0 to |rules|
        invariant all == forall k :: 0 <= k < i ==> rules[k].rule in host.chains.At(rules[k].location)
        invariant host.Faults() <= old(host.Faults())
      {
        var present := host.Exists(rules[i]);
        if present.Err? {
          return Err(present.error);
        }
        all := all && present.value;
      }
      result := Ok(all);
    }

    method AddIfMissing(host: Host, placed: PlacedRule) returns (result: Result<bool, GatewayError>)
      modifies host`faults, host`chains
      ensures result.Ok? && result.value ==>
                && placed.rule !in old(host.chains).At(placed.location)
                && host.chains ==
                    old(host.chains).With(placed.location, old(host.chains).At(placed.location) + [placed.rule])
      ensures result.Ok? && !result.value ==> placed.rule in old(host.chains).At(placed.location)
      ensures result.Err? || !result.value ==> host.chains == old(host.chains)
      ensures host.Faults() + Fault(result.Ok?) <= old(host.Faults())
    {
      var present := host.Exists(placed);
      if present.Err? {
        return Err(present.error);
      }
      if present.value {
        return Ok(false);
      }
      var ok := host.Append(placed);
      result := if ok then Ok(true) else Err(CommandFailed);
    }

    /** Add the plan's rules where they are missing: to chains that hold all five, or to chains that hold none. */
    method AddRules(host: Host) returns (result: Result<(), GatewayError>, added: seq<PlacedRule>)
      requires plan.Valid()
      requires NoneOwned(host.chains, plan.Owner())
            || (ExactlyOnce(host.chains, plan) && AllThere(host.chains, plan))
      modifies host`faults, host`chains
      ensures OthersUntouched(old(host.chains), host.chains, plan.Owner())
      ensures result.Ok? ==> ExactlyOnce(host.chains, plan)
      ensures if NoneOwned(old(host.chains), plan.Owner()) then FirstRulesAdded(host.chains, plan, added)
              else host.chains == old(host.chains) && added == []
      ensures forall r :: r in added ==> OwnedBy(r.rule, plan.Owner())
      ensures host.Faults() + Fault(result.Ok?) <= old(host.Faults())
    {
      var rules := plan.Rules();
      added := [];
      AllRulesAdded(host.chains, plan);
      for i := 0 to |rules|
        invariant OthersUntouched(old(host.chains), host.chains, plan.Owner())
        invariant AddedSoFar(old(host.chains), host.chains, plan, i, added)
        invariant host.Faults() <= old(host.Faults())
      {
        ghost var before := host.chains;
        var isAdded := AddIfMissing(host, rules[i]);
        AddingGoesOn(old(host.chains), before, host.chains, plan, i, added, isAdded);
        if isAdded.Err? {
          OwnRulesAdded(old(host.chains), host.chains, plan, i, added);
          return Err(isAdded.error), added;
        }
        if isAdded.value {
          added := added + [rules[i]];
        }
      }
      AllRulesAdded(host.chains, plan);
      OwnRulesAdded(old(host.chains), host.chains, plan, 5, added);
      result := Ok(());
    }

    /** Leave the chains alone if they hold exactly the five rules; otherwise delete whatever is owned. */
    method Reconcile(host: Host) returns (result: Result<(), GatewayError>)
      requires plan.Valid()
      modifies host`faults, host`chains
      ensures OthersUntouched(old(host.chains), host.chains, plan.Owner())
      ensures NothingNew(old(host.chains), host.chains, plan.Owner())
      ensures result.Ok? ==>
          NoneOwned(host.chains, plan.Owner()) || (ExactlyOnce(host.chains, plan) && AllThere(host.chains, plan))
      ensures ExactlyOnce(old(host.chains), plan) ==> host.chains == old(host.chains)
      ensures OwnedTotal(old(host.chains), plan.Owner()) <= REMOVAL_LIMIT ==>
          host.Faults() + Fault(result.Ok?) <= old(host.Faults())
    {
      if ExactlyOnce(host.chains, plan) {
        ExactMeansFive(host.chains, plan);
      }
      var present := AllPresent(host);
      if present.Err? {
        return Err(present.error);
      }
      var count := CountOwnedRules(host);
      if count.Err? {
        return Err(count.error);
      }
      if !present.value || count.value != |plan.Rules()| {
        var deleted := DeleteOwnedRules(host);
        result := if deleted.Ok? then Ok(()) else Err(deleted.error);
      } else {
        FiveAreTheFive(host.chains, plan);
        result := Ok(());
      }
    }

    /** The part of an apply that changes the system. */
    method ChangeSystem(host: Host, forwardingBefore: string)
      returns (result: Result<(), GatewayError>, added: seq<PlacedRule>)
      requires plan.Valid() && host.forwarding == forwardingBefore
      modifies host`faults, host`chains, host`forwarding
      ensures OthersUntouched(old(host.chains), host.chains, plan.Owner())
      ensures if result.Ok? then ExactlyOnce(host.chains, plan) && host.forwarding == "1"
              else host.forwarding == forwardingBefore
      ensures ExactlyOnce(old(host.chains), plan) ==> host.chains == old(host.chains) && added == []
      ensures forall r :: r in added ==> OwnedBy(r.rule, plan.Owner())
      ensures FirstRulesAdded(host.chains, plan, added)
              || (added == [] && NoRuleLeftBehind(old(host.chains), host.chains, plan.Owner()))
      ensures OwnedTotal(old(host.chains), plan.Owner()) <= REMOVAL_LIMIT ==>
          host.Faults() + Fault(result.Ok?) <= old(host.Faults())
    {
      added := [];
      if ExactlyOnce(host.chains, plan) {
        ExactMeansFive(host.chains, plan);
      }
      result := Reconcile(host);
      if result.Err? {
        return;
      }
      result, added := AddRules(host);
      if result.Ok? && forwardingBefore != "1" {
        var written := host.WriteForwarding("1");
        if !written {
          result := Err(CommandFailed);
        }
      }
    }

    /** Delete the rules that were added, the last one first, ignoring failures. */
    method DeleteAdded(host: Host, added: seq<PlacedRule>)
      requires plan.Valid() && forall r :: r in added ==> OwnedBy(r.rule, plan.Owner())
      modifies host`faults, host`chains
      ensures OthersUntouched(old(host.chains), host.chains, plan.Owner())
      ensures added == [] ==> host.chains == old(host.chains)
      ensures host.Faults() <= old(host.Faults())
      ensures old(host.Faults()) == 0 && FirstRulesAdded(old(host.chains), plan, added) ==>
          NoneOwned(host.chains, plan.Owner())
    {
      AllRulesAdded(host.chains, plan);
      ghost var first := old(host.Faults()) == 0 && FirstRulesAdded(old(host.chains), plan, added);
      var i := |added|;
      while i > 0
        invariant 0 <= i <= |added|
        invariant OthersUntouched(old(host.chains), host.chains, plan.Owner())
        invariant i == |added| ==> host.chains == old(host.chains)
        invariant host.Faults() <= old(host.Faults())
        invariant first ==> FirstRulesOwned(host.chains, plan, i)
      {
        i := i - 1;
        ghost var before := host.chains;
        assert added[i] in added;
        assert first ==> added[i] == plan.Rules()[i];
        var ok := host.DeleteOnce(added[i]);
        DeletedKeepsOthers(before, host.chains, plan, added[i], ok);
        if first {
          LastRuleDeleted(before, host.chains, plan, i, ok);
        }
      }
      AllRulesAdded(host.chains, plan);
    }

    method Rollback(host: Host, added: seq<PlacedRule>, markerCreated: bool, originalCreated: bool,
                    forwardingBefore: string)
      requires plan.Valid() && forall r :: r in added ==> OwnedBy(r.rule, plan.Owner())
      requires host.forwarding == forwardingBefore
      modifies host`faults, host`chains, host`forwarding, host`markers, host`original
      ensures OthersUntouched(old(host.chains), host.chains, plan.Owner())
      ensures added == [] ==> host.chains == old(host.chains)
      ensures host.forwarding == forwardingBefore
      ensures host.markers == old(host.markers) || (markerCreated && host.markers == old(host.markers) - {plan.tunnel})
      ensures host.original == old(host.original) || (originalCreated && host.original == None && host.markers == {})
      ensures old(host.Faults()) == 0 ==>
                && (FirstRulesAdded(old(host.chains), plan, added) ==> NoneOwned(host.chains, plan.Owner()))
                && host.markers == (if markerCreated then old(host.markers) - {plan.tunnel} else old(host.markers))
                && host.original == (if originalCreated && host.markers == {} then None else old(host.original))
    {
      DeleteAdded(host, added);
      if markerCreated {
        var removed := host.RemoveMarker(plan.tunnel);
      }
      if originalCreated {
        var marked := host.HasMarkers();
        if marked.Ok? && !marked.value {
          var written := host.WriteForwarding(forwardingBefore);
          var removed := host.RemoveOriginal();
        }
      }
    }

    /** The first check stands for everything that is checked before anything is recorded. */
    method Apply(host: Host) returns (result: Result<(), GatewayError>)
      requires plan.Valid()
      modifies host
      ensures ApplyPost(plan, old(host.View()), host.View(), result.Ok?)
      ensures old(host.Faults()) == 0 && OwnedTotal(old(host.chains), plan.Owner()) <= REMOVAL_LIMIT ==> result.Ok?
      ensures old(host.Faults()) <= 1 && OwnedTotal(old(host.chains), plan.Owner()) <= REMOVAL_LIMIT
              && (old(host.original).Some? || old(host.markers) == {}) && result.Err?
              ==> RolledBack(plan, old(host.View()), host.View())
    {
      var unready := host.Fails();
      if unready {
        return Err(CommandFailed);
      }
      ghost var before := host.View();
      var forwardingBefore := host.forwarding;
      var recorded := Record(host, forwardingBefore);
      if recorded.Err? {
        return Err(recorded.error);
      }
      result := ChangeOrRollBack(host, recorded.value.0, recorded.value.1, forwardingBefore);
      FilesOfRecordedApply(plan, before, host.View(), result.Ok?);
    }

    method ChangeOrRollBack(host: Host, originalCreated: bool, markerCreated: bool, forwardingBefore: string)
      returns (result: Result<(), GatewayError>)
      requires plan.Valid() && host.forwarding == forwardingBefore
      modifies host`faults, host`chains, host`forwarding, host`markers, host`original
      ensures OthersUntouched(old(host.chains), host.chains, plan.Owner())
      ensures ExactlyOnce(old(host.chains), plan) ==> host.chains == old(host.chains)
      ensures result.Ok? ==>
                && ExactlyOnce(host.chains, plan) && host.forwarding == "1"
                && host.markers == old(host.markers) && host.original == old(host.original)
      ensures result.Err? ==>
                && host.forwarding == forwardingBefore
                && (host.markers == old(host.markers)
                    || (markerCreated && host.markers == old(host.markers) - {plan.tunnel}))
                && (host.original == old(host.original)
                    || (originalCreated && host.original == None && host.markers == {}))
      ensures old(host.Faults()) == 0 && OwnedTotal(old(host.chains), plan.Owner()) <= REMOVAL_LIMIT ==> result.Ok?
      ensures old(host.Faults()) <= 1 && OwnedTotal(old(host.chains), plan.Owner()) <= REMOVAL_LIMIT && result.Err? ==>
                && NoRuleLeftBehind(old(host.chains), host.chains, plan.Owner())
                && host.markers == (if markerCreated then old(host.markers) - {plan.tunnel} else old(host.markers))
                && host.original == (if originalCreated && host.markers == {} then None else old(host.original))
    {
      var added;
      result, added := ChangeSystem(host, forwardingBefore);
      if result.Err? {
        ghost var changed := host.chains;
        Rollback(host, added, markerCreated, originalCreated, forwardingBefore);
        RollbackLeavesNoRule(old(host.chains), changed, host.chains, plan, added);
      }
    }

    /** Write the state files; the result says which of the two are new: the original value, and the marker. */
    method Record(host: Host, forwardingBefore: string) returns (result: Result<(bool, bool), GatewayError>)
      modifies host`faults, host`original, host`markers, host`torn
      ensures old(host.torn) ==> host.torn
      ensures host.markers - {plan.tunnel} == old(host.markers) - {plan.tunnel} && old(host.markers) <= host.markers
      ensures result.Ok? ==>
                && host.torn == old(host.torn)
                && result.value == (old(host.original).None?, plan.tunnel !in old(host.markers))
                && host.original == (if old(host.original).None? then Some(forwardingBefore) else old(host.original))
                && host.markers == old(host.markers) + {plan.tunnel}
      ensures result.Err? ==>
                (host.original == old(host.original)
                 || (old(host.original).None? && host.original in {Some(""), Some(forwardingBefore)}))
      ensures result.Err? && !host.torn ==>
                && host.markers == old(host.markers)
                && (host.original == old(host.original)
                    || (old(host.original).None? && host.original == Some(forwardingBefore)))
      ensures host.Faults() + Fault(result.Ok?) <= old(host.Faults())
      ensures old(host.Faults()) <= 1 && result.Err? ==>
                host.torn == old(host.torn) && host.markers == old(host.markers) && host.original == old(host.original)
    {
      var originalCreated := host.RecordOriginal(forwardingBefore);
      if originalCreated.Err? {
        return Err(originalCreated.error);
      }
      var markerCreated := host.RecordMarker(plan.tunnel);
      if markerCreated.Err? {
        if originalCreated.value {
          var removed := host.RemoveOriginal();
        }
        return Err(markerCreated.error);
      }
      result := Ok((originalCreated.value, markerCreated.value));
    }

    method Remove(host: Host) returns (result: Result<(), GatewayError>)
      modifies host
      ensures RemovePost(plan, old(host.View()), host.View(), result.Ok?)
      ensures old(host.Faults()) == 0 && OwnedTotal(old(host.chains), plan.Owner()) <= REMOVAL_LIMIT ==> result.Ok?
    {
      var unready := host.Fails();
      if unready {
        return Err(CommandFailed);
      }
      var deleted := DeleteOwnedRules(host);
      if deleted.Err? {
        return Err(deleted.error);
      }
      result := RemoveState(host);
    }

    /** Remove the marker and, with the last marker, put the original value back. */
    method RemoveState(host: Host) returns (result: Result<(), GatewayError>)
      modifies host`faults, host`forwarding, host`markers, host`original
      ensures host.markers == old(host.markers) || host.markers == old(host.markers) - {plan.tunnel}
      ensures result.Ok? ==>
                && host.markers == old(host.markers) - {plan.tunnel}
                && if old(host.original).Some? && host.markers == {} then
                     var was := old(host.original).value;
                     host.original == None
                     && host.forwarding == (if was in {"0", "1"} then was else old(host.forwarding))
                   else
                     host.original == old(host.original) && host.forwarding == old(host.forwarding)
      ensures result.Err? ==>
                && host.original == old(host.original)
                && (host.forwarding == old(host.forwarding)
                    || (host.original == Some(host.forwarding) && host.forwarding in {"0", "1"}))
      ensures host.Faults() + Fault(result.Ok?) <= old(host.Faults())
    {
      if plan.tunnel in host.markers {
        var removed := host.RemoveMarker(plan.tunnel);
        if !removed {
          return Err(CommandFailed);
        }
      }
      if host.original.Some? {
        var marked := host.HasMarkers();
        if marked.Err? {
          return Err(marked.error);
        }
        if !marked.value {
          result := RestoreForwarding(host);
          return;
        }
      }
      result := Ok(());
    }

    method RestoreForwarding(host: Host) returns (result: Result<(), GatewayError>)
      requires host.original.Some?
      modifies host`faults, host`forwarding, host`original
      ensures var was := old(host.original).value;
              if result.Ok? then
                host.original == None && host.forwarding == (if was in {"0", "1"} then was else old(host.forwarding))
              else
                host.original == old(host.original)
                && (host.forwarding == old(host.forwarding) || (host.forwarding == was && was in {"0", "1"}))
      ensures host.Faults() + Fault(result.Ok?) <= old(host.Faults())
    {
      var unreadable := host.Fails();
      if unreadable {
        return Err(CommandFailed);
      }
      var value := host.original.value;
      if value == "0" || value == "1" {
        var written := host.WriteForwarding(value);
        if !written {
          return Err(CommandFailed);
        }
      }
      var removed := host.RemoveOriginal();
      result := if removed then Ok(()) else Err(CommandFailed);
    }
  }

  /** Rule `i` goes at the end of its chain and nowhere else. */
  predicate AddedNext(plan: Plan, i: nat, loc: Location)
    requires i < 5
  {
    plan.AddedAt(i + 1, loc) ==
      if plan.Rules()[i].location == loc then plan.AddedAt(i, loc) + [plan.Rules()[i].rule] else plan.AddedAt(i, loc)
  }

  lemma RollbackLeavesNoRule(before: Chains, changed: Chains, after: Chains, plan: Plan, added: seq<PlacedRule>)
    requires FirstRulesAdded(changed, plan, added) || (added == [] && NoRuleLeftBehind(before, changed, plan.Owner()))
    requires added == [] ==> after == changed
    ensures (FirstRulesAdded(changed, plan, added) ==> NoneOwned(after, plan.Owner())) ==>
            NoRuleLeftBehind(before, after, plan.Owner())
  {}

  /** The files after an apply that got past recording, from what its second part did. */
  lemma FilesOfRecordedApply(plan: Plan, before: Machine, after: Machine, ok: bool)
    requires after.torn == before.torn
    requires var kept := if before.original.Some? then before.original else Some(before.forwarding);
             var marked := before.markers + {plan.tunnel};
             if ok then
               after.forwarding == "1" && after.markers == marked && after.original == kept
             else
               && after.forwarding == before.forwarding
               && (after.markers == marked
                   || (plan.tunnel !in before.markers && after.markers == marked - {plan.tunnel}))
               && (after.original == kept || (before.original.None? && after.original == None && after.markers == {}))
    ensures FilesAfterApply(plan, before, after, ok)
    ensures plan.tunnel !in before.markers ==> before.markers + {plan.tunnel} - {plan.tunnel} == before.markers
    ensures plan.tunnel in before.markers ==> before.markers + {plan.tunnel} == before.markers
  {}

  lemma NextRule(plan: Plan, i: nat)
    requires plan.Valid() && i < 5
    ensures var placed := plan.Rules()[i];
            && OwnedBy(placed.rule, plan.Owner())
            && placed.rule !in plan.AddedAt(i, placed.location)
            && AddedNext(plan, i, MangleForward) && AddedNext(plan, i, NatPostrouting)
            && AddedNext(plan, i, FilterForward)
  {
    assert i == 0 || i == 1 || i == 2 || i == 3 || i == 4;
  }

  /** One call of `AddIfMissing` on chains that hold the first `i` rules, or on chains that hold all. */
  lemma AddedKeepsOrder(before: Chains, after: Chains, plan: Plan, i: nat, added: Result<bool, GatewayError>)
    requires plan.Valid() && i < 5
    requires var placed := plan.Rules()[i];
             if added.Ok? && added.value then
               placed.rule !in before.At(placed.location)
               && after == before.With(placed.location, before.At(placed.location) + [placed.rule])
             else after == before && (added.Ok? ==> placed.rule in before.At(placed.location))
    ensures OthersUntouched(before, after, plan.Owner())
    ensures FirstRulesOwned(before, plan, i) && added.Ok? ==> FirstRulesOwned(after, plan, i + 1)
  {
    var placed := plan.Rules()[i];
    var chain := before.At(placed.location);
    NextRule(plan, i);
    SelectAppend(chain, placed.rule, plan.Owner());
    SelectMembers(chain, plan.Owner(), true, placed.rule);
    if FirstRulesOwned(before, plan, i) {
      OwnedAtLocation(before, plan, i, placed.location);
      match placed.location
      case MangleForward =>
      case NatPostrouting =>
      case FilterForward =>
    }
  }

  /** Where the loop of `AddRules` is: in chains that held none, the first `i` are there; other chains are untouched. */
  ghost predicate AddedSoFar(start: Chains, chains: Chains, plan: Plan, i: nat, added: seq<PlacedRule>) {
    if NoneOwned(start, plan.Owner()) then i <= 5 && FirstRulesOwned(chains, plan, i) && added == plan.Rules()[..i]
    else chains == start && added == []
  }

  lemma OwnRulesAdded(start: Chains, chains: Chains, plan: Plan, i: nat, added: seq<PlacedRule>)
    requires AddedSoFar(start, chains, plan, i, added)
    ensures forall r :: r in added ==> OwnedBy(r.rule, plan.Owner())
  {}

  lemma AddingGoesOn(start: Chains, before: Chains, after: Chains, plan: Plan, i: nat, added: seq<PlacedRule>,
                     isAdded: Result<bool, GatewayError>)
    requires plan.Valid() && i < 5 && AddedSoFar(start, before, plan, i, added)
    requires NoneOwned(start, plan.Owner()) || AllThere(start, plan)
    requires var placed := plan.Rules()[i];
             if isAdded.Ok? && isAdded.value then
               placed.rule !in before.At(placed.location)
               && after == before.With(placed.location, before.At(placed.location) + [placed.rule])
             else after == before && (isAdded.Ok? ==> placed.rule in before.At(placed.location))
    ensures OthersUntouched(before, after, plan.Owner())
    ensures isAdded.Ok? ==>
              AddedSoFar(start, after, plan, i + 1, if isAdded.value then added + [plan.Rules()[i]] else added)
  {
    AddedKeepsOrder(before, after, plan, i, isAdded);
    if NoneOwned(start, plan.Owner()) {
      NextIsMissing(before, plan, i);
      assert plan.Rules()[..i] + [plan.Rules()[i]] == plan.Rules()[..i + 1];
    } else {
      assert plan.Rules()[i] in plan.Rules();
    }
  }

  lemma NextIsMissing(chains: Chains, plan: Plan, i: nat)
    requires plan.Valid() && i < 5 && FirstRulesOwned(chains, plan, i)
    ensures plan.Rules()[i].rule !in chains.At(plan.Rules()[i].location)
  {
    OwnedAtLocation(chains, plan, i, plan.Rules()[i].location);
    NextRule(plan, i);
    SelectMembers(chains.At(plan.Rules()[i].location), plan.Owner(), true, plan.Rules()[i].rule);
  }

  lemma DeletedKeepsOthers(before: Chains, after: Chains, plan: Plan, placed: PlacedRule, ok: bool)
    requires OwnedBy(placed.rule, plan.Owner()) && (ok ==> placed.rule in before.At(placed.location))
    requires after == if ok then before.With(placed.location,
                        RemoveAt(before.At(placed.location), FirstEqual(before.At(placed.location), placed.rule)))
                      else before
    ensures OthersUntouched(before, after, plan.Owner())
  {
    if ok {
      SelectWithout(before.At(placed.location), FirstEqual(before.At(placed.location), placed.rule), plan.Owner());
    }
  }

  /** Deleting a rule that is owned once, at the end, leaves the owned rules before it. */
  lemma DeletedAtTheEnd(chain: seq<Rule>, rule: Rule, owner: string, rest: seq<Rule>)
    requires Select(chain, owner, true) == rest + [rule] && rule !in rest
    ensures rule in chain && Select(RemoveAt(chain, FirstEqual(chain, rule)), owner, true) == rest
  {
    SelectMembers(chain, owner, true, rule);
    assert rule in rest + [rule];
    var i := FirstEqual(chain, rule);
    FirstIsFirst(chain, rule);
    SelectRemoved(chain, i, owner, true);
    var a, b := Select(chain[..i], owner, true), Select(chain[i + 1..], owner, true);
    SelectMembers(chain[..i], owner, true, rule);
    assert a + [rule] + b == rest + [rule];
    SplitAtTheRule(a, b, rest, rule);
    assert a + b == a;
  }

  lemma SplitAtTheRule(a: seq<Rule>, b: seq<Rule>, rest: seq<Rule>, rule: Rule)
    requires a + [rule] + b == rest + [rule]
    ensures rule in rest || (a == rest && b == [])
  {
    var all := rest + [rule];
    assert all[|a|] == rule && |a| + 1 + |b| == |rest| + 1;
    if |a| < |rest| {
      assert rest[|a|] == rule;
    } else {
      assert a == all[..|a|] && rest == all[..|a|];
    }
  }

  lemma {:induction false} FirstIsFirst(chain: seq<Rule>, rule: Rule)
    ensures rule !in chain[..FirstEqual(chain, rule)]
  {
    if chain != [] && chain[0] != rule {
      FirstIsFirst(chain[1..], rule);
      assert chain[..FirstEqual(chain, rule)] == [chain[0]] + chain[1..][..FirstEqual(chain[1..], rule)];
    }
  }

  lemma LastRuleDeleted(before: Chains, after: Chains, plan: Plan, i: nat, ok: bool)
    requires plan.Valid() && i < 5 && FirstRulesOwned(before, plan, i + 1)
    requires var placed := plan.Rules()[i];
             && (ok <==> placed.rule in before.At(placed.location))
             && after == if ok then before.With(placed.location,
                           RemoveAt(before.At(placed.location), FirstEqual(before.At(placed.location), placed.rule)))
                         else before
    ensures FirstRulesOwned(after, plan, i)
  {
    var placed := plan.Rules()[i];
    NextRule(plan, i);
    OwnedAtLocation(before, plan, i + 1, placed.location);
    DeletedAtTheEnd(before.At(placed.location), placed.rule, plan.Owner(), plan.AddedAt(i, placed.location));
    match placed.location
    case MangleForward =>
    case NatPostrouting =>
    case FilterForward =>
  }

  lemma OwnedAtLocation(chains: Chains, plan: Plan, i: nat, loc: Location)
    requires FirstRulesOwned(chains, plan, i)
    ensures Owned(chains, loc, plan.Owner()) == plan.AddedAt(i, loc)
  {
    match loc
    case MangleForward =>
    case NatPostrouting =>
    case FilterForward =>
  }

  lemma AllRulesAdded(chains: Chains, plan: Plan)
    ensures FirstRulesOwned(chains, plan, 0) <==> NoneOwned(chains, plan.Owner())
    ensures FirstRulesOwned(chains, plan, 5) ==> ExactlyOnce(chains, plan)
  {}

  lemma Distinct(want: seq<Rule>, have: seq<Rule>)
    requires |want| <= 2 && (|want| == 2 ==> want[0] != want[1])
    requires forall r :: r in want ==> r in have
    ensures |want| <= |have|
    ensures |want| == |have| ==> multiset(want) == multiset(have)
  {
    var w, h := multiset(want), multiset(have);
    DistinctAreIncluded(want, have);
    assert h == w + (h - w) && |h| == |w| + |h - w|;
  }

  lemma DistinctAreIncluded(want: seq<Rule>, have: seq<Rule>)
    requires |want| <= 2 && (|want| == 2 ==> want[0] != want[1])
    requires forall r :: r in want ==> r in have
    ensures multiset(want) <= multiset(have)
  {
    if |want| == 1 {
      assert want == [want[0]] && want[0] in have;
    } else if |want| == 2 {
      assert want == [want[0], want[1]] && want[0] in have && want[1] in have;
    }
  }

  /** When all five rules are there and five are owned, each is there once. */
  lemma FiveAreTheFive(chains: Chains, plan: Plan)
    requires plan.Valid() && OwnedTotal(chains, plan.Owner()) == 5
    requires AllThere(chains, plan)
    ensures ExactlyOnce(chains, plan)
  {
    RulesCovered(chains, plan, MangleForward);
    RulesCovered(chains, plan, NatPostrouting);
    RulesCovered(chains, plan, FilterForward);
  }

  lemma RulesCovered(chains: Chains, plan: Plan, loc: Location)
    requires plan.Valid() && AllThere(chains, plan)
    ensures var want, have := plan.RulesAt(loc), Owned(chains, loc, plan.Owner());
            |want| <= |have| && (|want| == |have| ==> multiset(have) == multiset(want))
  {
    forall r | r in plan.RulesAt(loc) ensures r in Owned(chains, loc, plan.Owner()) {
      RulesArePlaced(plan, PlacedRule(loc, r));
      SelectMembers(chains.At(loc), plan.Owner(), true, r);
    }
    Distinct(plan.RulesAt(loc), Owned(chains, loc, plan.Owner()));
  }

  lemma ExactMeansFive(chains: Chains, plan: Plan)
    requires ExactlyOnce(chains, plan)
    ensures OwnedTotal(chains, plan.Owner()) == 5 && AllThere(chains, plan)
  {
    ExactAt(chains, plan, MangleForward);
    ExactAt(chains, plan, NatPostrouting);
    ExactAt(chains, plan, FilterForward);
    forall r | r in plan.Rules() ensures r.rule in chains.At(r.location) {
      RulesArePlaced(plan, r);
    }
  }

  lemma ExactAt(chains: Chains, plan: Plan, loc: Location)
    requires multiset(Owned(chains, loc, plan.Owner())) == multiset(plan.RulesAt(loc))
    ensures |Owned(chains, loc, plan.Owner())| == |plan.RulesAt(loc)|
    ensures forall r :: r in plan.RulesAt(loc) ==> r in chains.At(loc)
  {
    var have, want := Owned(chains, loc, plan.Owner()), plan.RulesAt(loc);
    assert |have| == |multiset(have)| && |want| == |multiset(want)|;
    forall r | r in want ensures r in chains.At(loc) {
      assert r in multiset(want);
      assert r in have;
      SelectMembers(chains.At(loc), plan.Owner(), true, r);
    }
  }

  // ---------------------------------------------------------------------------
  // What the rules mean for traffic.
  // ---------------------------------------------------------------------------

  /** Forwarded traffic: the interface it came in on, the one it leaves by, and whether it answers earlier traffic. */
  datatype Traffic = Traffic(inbound: string, outbound: string, established: bool)

  /** Whether traffic matches what a rule asks for. */
  predicate Matches(spec: Spec, t: Traffic) {
    match spec
    case Mss(inbound, outbound, _) => t.inbound == inbound && t.outbound == outbound
    case Masquerade(outbound) => t.outbound == outbound
    case Accept(inbound, outbound) => t.inbound == inbound && t.outbound == outbound
    case AcceptEstablished(inbound, outbound) =>
      t.inbound == inbound && t.outbound == outbound && t.established
    case OtherSpec(_) => false
  }

  predicate MatchedBy(rules: seq<Rule>, t: Traffic) {
    exists r :: r in rules && Matches(r.spec, t)
  }

  /**
   A machine with exactly the rules of a gateway: its own rules let the LAN into the tunnel and only answers
   back; they hide what leaves by the tunnel behind its address; and they clamp the segment size both ways.
   */
  lemma RulesMean(chains: Chains, plan: Plan, t: Traffic)
    requires plan.Valid() && ExactlyOnce(chains, plan)
    ensures MatchedBy(Owned(chains, FilterForward, plan.Owner()), t) <==>
            || (t.inbound == plan.lan && t.outbound == plan.tunnel)
            || (t.inbound == plan.tunnel && t.outbound == plan.lan && t.established)
    ensures MatchedBy(Owned(chains, NatPostrouting, plan.Owner()), t) <==> t.outbound == plan.tunnel
    ensures MatchedBy(Owned(chains, MangleForward, plan.Owner()), t) <==>
            || (t.inbound == plan.lan && t.outbound == plan.tunnel)
            || (t.inbound == plan.tunnel && t.outbound == plan.lan)
    ensures forall r :: r in Owned(chains, MangleForward, plan.Owner()) ==> r.spec.Mss? && r.spec.mss == plan.mss
    ensures forall r :: r in Owned(chains, FilterForward, plan.Owner()) ==> r.spec.Accept? || r.spec.AcceptEstablished?
    ensures forall r :: r in Owned(chains, NatPostrouting, plan.Owner()) ==> r.spec.Masquerade?
  {
    SameMatches(Owned(chains, FilterForward, plan.Owner()), plan.RulesAt(FilterForward), t);
    SameMatches(Owned(chains, NatPostrouting, plan.Owner()), plan.RulesAt(NatPostrouting), t);
    SameMatches(Owned(chains, MangleForward, plan.Owner()), plan.RulesAt(MangleForward), t);
    RulesOfPlan(plan, t);
  }

  lemma SameMatches(have: seq<Rule>, want: seq<Rule>, t: Traffic)
    requires multiset(have) == multiset(want)
    ensures MatchedBy(have, t) <==> MatchedBy(want, t)
    ensures forall r :: r in have <==> r in want
  {
    forall r ensures r in have <==> r in want {
      assert r in have <==> r in multiset(have);
      assert r in want <==> r in multiset(want);
    }
  }

  lemma RulesOfPlan(plan: Plan, t: Traffic)
    ensures MatchedBy(plan.RulesAt(FilterForward), t) <==>
            || (t.inbound == plan.lan && t.outbound == plan.tunnel)
            || (t.inbound == plan.tunnel && t.outbound == plan.lan && t.established)
    ensures MatchedBy(plan.RulesAt(NatPostrouting), t) <==> t.outbound == plan.tunnel
    ensures MatchedBy(plan.RulesAt(MangleForward), t) <==>
            || (t.inbound == plan.lan && t.outbound == plan.tunnel)
            || (t.inbound == plan.tunnel && t.outbound == plan.lan)
  {
    assert plan.RulesAt(FilterForward)[0] in plan.RulesAt(FilterForward)
           && plan.RulesAt(FilterForward)[1] in plan.RulesAt(FilterForward);
    assert plan.RulesAt(NatPostrouting)[0] in plan.RulesAt(NatPostrouting);
    assert plan.RulesAt(MangleForward)[0] in plan.RulesAt(MangleForward)
           && plan.RulesAt(MangleForward)[1] in plan.RulesAt(MangleForward);
  }
}
