/**
 Runs of any number of gateways on one machine: applies that succeed or are
 rolled back, and removals that succeed or stop half way, in any order.
 */
module GatewayRuns {
  import opened Wrappers
  import opened Gateways

  datatype Step = Applied(plan: Plan, ok: bool) | Removed(plan: Plan, ok: bool)

  ghost predicate Happens(s: Step, before: Machine, after: Machine) {
    s.plan.Valid() &&
    match s
    case Applied(plan, ok) => ApplyPost(plan, before, after, ok)
    case Removed(plan, ok) => RemovePost(plan, before, after, ok)
  }

  ghost predicate Run(machines: seq<Machine>, steps: seq<Step>) {
    && |machines| == |steps| + 1
    && forall i :: 0 <= i < |steps| ==> Happens(steps[i], machines[i], machines[i + 1])
  }

  /** No gateway was ever applied here, or all were removed properly. */
  predicate Clean(m: Machine) {
    m.markers == {} && m.original == None && !m.torn
  }

  // ---------------------------------------------------------------------------
  // Forwarding.
  // ---------------------------------------------------------------------------

  /** `f0` is remembered while gateways are marked, and is in force while nothing is remembered. */
  predicate Remembers(m: Machine, f0: string) {
    !m.torn ==> if m.original.Some? then m.original.value == f0 else m.forwarding == f0 && m.markers == {}
  }

  lemma StepRemembers(s: Step, before: Machine, after: Machine, f0: string)
    requires Happens(s, before, after) && Remembers(before, f0) && f0 in {"0", "1"}
    ensures Remembers(after, f0) && (before.torn ==> after.torn)
  {}

  lemma {:induction false} RunRemembers(machines: seq<Machine>, steps: seq<Step>, i: nat)
    requires Run(machines, steps) && Clean(machines[0]) && machines[0].forwarding in {"0", "1"} && i <= |steps|
    ensures Remembers(machines[i], machines[0].forwarding)
  {
    if i > 0 {
      RunRemembers(machines, steps, i - 1);
      assert Happens(steps[i - 1], machines[i - 1], machines[i]);
      StepRemembers(steps[i - 1], machines[i - 1], machines[i], machines[0].forwarding);
    }
  }

  /**
   After the last gateway is removed, forwarding is what it was before the first was applied, and the
   machine is clean again.
   */
  lemma ForwardingIsRestored(machines: seq<Machine>, steps: seq<Step>, i: nat)
    requires Run(machines, steps) && Clean(machines[0]) && machines[0].forwarding in {"0", "1"} && i < |steps|
    requires steps[i].Removed? && steps[i].ok && machines[i + 1].markers == {} && !machines[i + 1].torn
    ensures machines[i + 1].forwarding == machines[0].forwarding && Clean(machines[i + 1])
  {
    assert Happens(steps[i], machines[i], machines[i + 1]);
    RunRemembers(machines, steps, i);
    RunRemembers(machines, steps, i + 1);
  }

  predicate Succeeds(s: Step) {
    s.Applied? && s.ok
  }

  /** The file for the original value was created, but nothing was written to it. */
  predicate HalfWritten(m: Machine) {
    m.original == Some("")
  }

  /** A value that no removal puts back stays until an apply succeeds. */
  lemma {:induction false} UntilApplied(machines: seq<Machine>, steps: seq<Step>, i: nat)
    requires Run(machines, steps) && Clean(machines[0]) && i <= |steps|
    requires machines[0].forwarding !in {"0", "1"}
    requires forall k :: 0 <= k < i ==> !Succeeds(steps[k])
    ensures machines[i].forwarding == machines[0].forwarding
    ensures machines[i].original in {None, Some(""), Some(machines[0].forwarding)}
  {
    if i > 0 {
      assert Happens(steps[i - 1], machines[i - 1], machines[i]);
      UntilApplied(machines, steps, i - 1);
    }
  }

  /** Once an apply succeeded, forwarding is 0 or 1 for good. */
  lemma {:induction false} SinceApplied(machines: seq<Machine>, steps: seq<Step>, k: nat, i: nat)
    requires Run(machines, steps) && k < i <= |steps| && Succeeds(steps[k])
    ensures machines[i].forwarding in {"0", "1"}
  {
    assert Happens(steps[i - 1], machines[i - 1], machines[i]);
    if k < i - 1 {
      SinceApplied(machines, steps, k, i - 1);
    }
  }

  /** Forwarding is on, and nothing will turn it off. */
  predicate OnForGood(m: Machine) {
    m.forwarding == "1" && m.original != Some("0")
  }

  /** Forwarding is off, or it is remembered that it was. */
  predicate OffOrRemembered(m: Machine) {
    m.original == Some("0") || (m.forwarding == "0" && (m.original == None || HalfWritten(m)))
  }

  lemma {:induction false} StaysOn(machines: seq<Machine>, steps: seq<Step>, i: nat)
    requires Run(machines, steps) && OnForGood(machines[0]) && i <= |steps|
    ensures OnForGood(machines[i])
  {
    if i > 0 {
      assert Happens(steps[i - 1], machines[i - 1], machines[i]);
      StaysOn(machines, steps, i - 1);
    }
  }

  /** A machine that did not forward: what one successful apply over a half-written file does to it. */
  lemma {:induction false} OffUntilForgotten(machines: seq<Machine>, steps: seq<Step>, i: nat)
    requires Run(machines, steps) && OffOrRemembered(machines[0]) && i <= |steps|
    ensures if forall k :: 0 <= k < i && Succeeds(steps[k]) ==> !HalfWritten(machines[k])
            then OffOrRemembered(machines[i])
            else OnForGood(machines[i])
  {
    if i > 0 {
      assert Happens(steps[i - 1], machines[i - 1], machines[i]);
      OffUntilForgotten(machines, steps, i - 1);
    }
  }

  /**
   Over any run, under any failures, exactly when the removal of the last gateway leaves
   forwarding as it was before the first apply: it was on; or it was off, and no apply
   succeeded while the file for the original value was half-written; or no apply succeeded.
   */
  lemma ForwardingRestoredIff(machines: seq<Machine>, steps: seq<Step>, i: nat)
    requires Run(machines, steps) && Clean(machines[0]) && i < |steps|
    requires steps[i].Removed? && steps[i].ok && machines[i + 1].markers == {}
    ensures machines[i + 1].forwarding == machines[0].forwarding <==>
            || machines[0].forwarding == "1"
            || forall k :: 0 <= k <= i && Succeeds(steps[k]) ==>
                 machines[0].forwarding == "0" && !HalfWritten(machines[k])
  {
    assert Happens(steps[i], machines[i], machines[i + 1]);
    if machines[0].forwarding == "1" {
      StaysOn(machines, steps, i + 1);
    } else if machines[0].forwarding == "0" {
      OffUntilForgotten(machines, steps, i + 1);
    } else if k :| 0 <= k <= i && Succeeds(steps[k]) {
      SinceApplied(machines, steps, k, i + 1);
    } else {
      UntilApplied(machines, steps, i + 1);
    }
  }

  /** When no state file was left half-written, only the first value and the success of an apply matter. */
  lemma ForwardingRestoredWithoutTornFile(machines: seq<Machine>, steps: seq<Step>, i: nat)
    requires Run(machines, steps) && Clean(machines[0]) && i < |steps|
    requires steps[i].Removed? && steps[i].ok && machines[i + 1].markers == {} && !machines[i + 1].torn
    ensures machines[i + 1].forwarding == machines[0].forwarding <==>
            machines[0].forwarding in {"0", "1"} || forall k :: 0 <= k <= i ==> !Succeeds(steps[k])
  {
    ForwardingRestoredIff(machines, steps, i);
    if machines[0].forwarding in {"0", "1"} {
      ForwardingIsRestored(machines, steps, i);
    }
  }

  /**
   The loss happens: a first apply leaves the file half-written, a second succeeds over it, and the
   removal finds nothing to restore. Forwarding was off and stays on.
   */
  lemma HalfWrittenFileForgets(plan: Plan) returns (machines: seq<Machine>, steps: seq<Step>)
    requires plan.Valid()
    ensures Run(machines, steps) && Clean(machines[0]) && machines[0].forwarding == "0"
    ensures steps == [Applied(plan, false), Applied(plan, true), Removed(plan, true)]
    ensures HalfWritten(machines[1]) && machines[3].markers == {} && machines[3].forwarding == "1"
  {
    JustRulesAreOwned(plan);
    machines, steps := LossOver(plan, Chains([], [], []), JustRules(plan));
  }

  /** The loss on any chains without and with the plan's rules. */
  lemma LossOver(plan: Plan, none: Chains, five: Chains) returns (machines: seq<Machine>, steps: seq<Step>)
    requires plan.Valid() && RulesAfterApply(plan, none, five, true)
    requires OthersUntouched(five, none, plan.Owner()) && NoneOwned(none, plan.Owner())
    ensures Run(machines, steps) && Clean(machines[0]) && machines[0].forwarding == "0"
    ensures steps == [Applied(plan, false), Applied(plan, true), Removed(plan, true)]
    ensures HalfWritten(machines[1]) && machines[3].markers == {} && machines[3].forwarding == "1"
  {
    var clean := Machine(none, "0", {}, None, false);
    var failed := clean.(original := Some(""), torn := true);
    var applied := failed.(chains := five, forwarding := "1", markers := {plan.tunnel});
    machines := [clean, failed, applied, Machine(none, "1", {}, None, true)];
    steps := [Applied(plan, false), Applied(plan, true), Removed(plan, true)];
    FailingWrite(plan, clean);
    AppliedOverIt(plan, failed, applied);
    RemovedWithNothingToRestore(plan, applied, machines[3]);
  }

  lemma FailingWrite(plan: Plan, before: Machine)
    requires plan.Valid() && before.original == None
    ensures Happens(Applied(plan, false), before, before.(original := Some(""), torn := true))
  {}

  lemma AppliedOverIt(plan: Plan, before: Machine, after: Machine)
    requires plan.Valid() && RulesAfterApply(plan, before.chains, after.chains, true) && HalfWritten(before)
    requires after == before.(chains := after.chains, forwarding := "1", markers := before.markers + {plan.tunnel})
    ensures ApplyPost(plan, before, after, true)
  {
    FilesOfRecordedApply(plan, before, after, true);
  }

  lemma RemovedWithNothingToRestore(plan: Plan, before: Machine, after: Machine)
    requires plan.Valid() && OthersUntouched(before.chains, after.chains, plan.Owner())
    requires NoneOwned(after.chains, plan.Owner()) && HalfWritten(before) && before.markers == {plan.tunnel}
    requires after == before.(chains := after.chains, markers := {}, original := None)
    ensures Happens(Removed(plan, true), before, after)
  {
    assert before.markers - {plan.tunnel} == {};
  }

  /** Chains that hold the plan's rules and no others. */
  function JustRules(plan: Plan): Chains {
    Chains(plan.RulesAt(MangleForward), plan.RulesAt(NatPostrouting), plan.RulesAt(FilterForward))
  }

  lemma JustRulesAreOwned(plan: Plan)
    ensures RulesAfterApply(plan, Chains([], [], []), JustRules(plan), true)
    ensures OthersUntouched(JustRules(plan), Chains([], [], []), plan.Owner())
  {
    OwnRulesOnly(plan.RulesAt(MangleForward), plan.Owner());
    OwnRulesOnly(plan.RulesAt(NatPostrouting), plan.Owner());
    OwnRulesOnly(plan.RulesAt(FilterForward), plan.Owner());
  }

  lemma {:induction false} OwnRulesOnly(chain: seq<Rule>, owner: string)
    requires forall r :: r in chain ==> OwnedBy(r, owner)
    ensures Select(chain, owner, true) == chain && Select(chain, owner, false) == []
  {
    if chain != [] {
      OwnRulesOnly(chain[1..], owner);
    }
  }

  /** Over any run: while a gateway is marked, the first value is not lost if it was 0 or 1. */
  lemma OriginalIsKept(machines: seq<Machine>, steps: seq<Step>, i: nat)
    requires Run(machines, steps) && Clean(machines[0]) && machines[0].forwarding in {"0", "1"} && i <= |steps|
    requires !machines[i].torn && machines[i].markers != {}
    ensures machines[i].original == Some(machines[0].forwarding)
  {
    RunRemembers(machines, steps, i);
  }

  /** As long as some gateway stays marked, what was in force before the first of them is not lost, whatever it was. */
  lemma {:induction false} OriginalIsKeptSince(machines: seq<Machine>, steps: seq<Step>, j: nat, i: nat)
    requires Run(machines, steps) && j < i <= |steps| && !machines[i].torn
    requires machines[j].markers == {} && machines[j].original == None
    requires forall k :: j < k <= i ==> machines[k].markers != {}
    ensures machines[i].original == Some(machines[j].forwarding)
  {
    assert Happens(steps[i - 1], machines[i - 1], machines[i]);
    if j < i - 1 {
      OriginalIsKeptSince(machines, steps, j, i - 1);
    }
  }

  /** One apply and one removal on a clean machine restore forwarding exactly when its value was 0 or 1. */
  lemma RestoredIff(plan: Plan, before: Machine, during: Machine, after: Machine)
    requires plan.Valid() && Clean(before)
    requires ApplyPost(plan, before, during, true) && RemovePost(plan, during, after, true)
    ensures after.original == None && after.markers == {}
    ensures after.forwarding == before.forwarding <==> before.forwarding in {"0", "1"}
  {
    assert {plan.tunnel} - {plan.tunnel} == {};
  }

  // ---------------------------------------------------------------------------
  // Rules.
  // ---------------------------------------------------------------------------

  /** The rules that none of these owners owns, in order. */
  function Unowned(chain: seq<Rule>, owners: set<string>): seq<Rule> {
    if chain == [] then []
    else if chain[0].comment.Some? && chain[0].comment.value in owners then Unowned(chain[1..], owners)
    else [chain[0]] + Unowned(chain[1..], owners)
  }

  lemma {:induction false} UnownedOfOthers(chain: seq<Rule>, owners: set<string>, owner: string)
    requires owner in owners
    ensures Unowned(Select(chain, owner, false), owners) == Unowned(chain, owners)
  {
    if chain != [] {
      UnownedOfOthers(chain[1..], owners, owner);
      if !OwnedBy(chain[0], owner) {
        assert Select(chain, owner, false)[1..] == Select(chain[1..], owner, false);
      }
    }
  }

  function OwnersOf(steps: seq<Step>): set<string> {
    set s | s in steps :: s.plan.Owner()
  }

  ghost predicate SameUnowned(a: Chains, b: Chains, owners: set<string>) {
    && Unowned(a.mangleForward, owners) == Unowned(b.mangleForward, owners)
    && Unowned(a.natPostrouting, owners) == Unowned(b.natPostrouting, owners)
    && Unowned(a.filterForward, owners) == Unowned(b.filterForward, owners)
  }

  /** Rules of everybody else keep their content and order through the whole run. */
  lemma {:induction false} OthersKeepTheirRules(machines: seq<Machine>, steps: seq<Step>, i: nat)
    requires Run(machines, steps) && i <= |steps|
    ensures SameUnowned(machines[0].chains, machines[i].chains, OwnersOf(steps))
  {
    if i > 0 {
      OthersKeepTheirRules(machines, steps, i - 1);
      var s, before, after := steps[i - 1], machines[i - 1].chains, machines[i].chains;
      assert Happens(s, machines[i - 1], machines[i]);
      assert s in steps;
      StepKeepsUnowned(before, after, OwnersOf(steps), s.plan.Owner());
    }
  }

  lemma StepKeepsUnowned(before: Chains, after: Chains, owners: set<string>, owner: string)
    requires OthersUntouched(before, after, owner) && owner in owners
    ensures SameUnowned(before, after, owners)
  {
    UnownedOfOthers(before.mangleForward, owners, owner);
    UnownedOfOthers(after.mangleForward, owners, owner);
    UnownedOfOthers(before.natPostrouting, owners, owner);
    UnownedOfOthers(after.natPostrouting, owners, owner);
    UnownedOfOthers(before.filterForward, owners, owner);
    UnownedOfOthers(after.filterForward, owners, owner);
  }

  lemma {:induction false} OwnedOfOthers(chain: seq<Rule>, owner: string, other: string)
    requires owner != other
    ensures Select(Select(chain, other, false), owner, true) == Select(chain, owner, true)
  {
    if chain != [] {
      OwnedOfOthers(chain[1..], owner, other);
      if !OwnedBy(chain[0], other) {
        assert Select(chain, other, false)[1..] == Select(chain[1..], other, false);
      }
    }
  }

  lemma OwnersDiffer(a: Plan, b: Plan)
    requires a.tunnel != b.tunnel
    ensures a.Owner() != b.Owner()
  {
    var prefix := "hushwire-gateway:";
    assert a.Owner()[|prefix|..] == a.tunnel && b.Owner()[|prefix|..] == b.tunnel;
  }

  lemma OtherStepKeepsOwned(s: Step, before: Machine, after: Machine, plan: Plan)
    requires Happens(s, before, after) && s.plan.tunnel != plan.tunnel && ExactlyOnce(before.chains, plan)
    ensures ExactlyOnce(after.chains, plan)
  {
    OwnersDiffer(plan, s.plan);
    forall chain | chain in [before.chains.mangleForward, after.chains.mangleForward, before.chains.natPostrouting,
                             after.chains.natPostrouting, before.chains.filterForward, after.chains.filterForward]
      ensures Select(Select(chain, s.plan.Owner(), false), plan.Owner(), true) == Select(chain, plan.Owner(), true)
    {
      OwnedOfOthers(chain, plan.Owner(), s.plan.Owner());
    }
  }

  lemma AppliedHasItsRules(s: Step, before: Machine, after: Machine)
    requires Happens(s, before, after) && s.Applied? && s.ok
    ensures ExactlyOnce(after.chains, s.plan)
  {}

  /** A gateway that was applied has exactly its five rules, once each, however often other gateways come and go. */
  lemma {:induction false} AppliedRulesStay(machines: seq<Machine>, steps: seq<Step>, i: nat, j: nat)
    requires Run(machines, steps) && i < j <= |steps|
    requires steps[i].Applied? && steps[i].ok
    requires forall k :: i < k < j ==> steps[k].plan.tunnel != steps[i].plan.tunnel
    ensures ExactlyOnce(machines[j].chains, steps[i].plan)
  {
    AppliedHasItsRules(steps[i], machines[i], machines[i + 1]);
    var plan := steps[i].plan;
    for k := i + 1 to j
      invariant ExactlyOnce(machines[k].chains, plan)
    {
      OtherStepKeepsOwned(steps[k], machines[k], machines[k + 1], plan);
    }
  }

  /** Applying again changes no chain, even if the second apply fails. */
  lemma ReapplyChangesNoChain(machines: seq<Machine>, steps: seq<Step>, i: nat)
    requires Run(machines, steps) && i + 1 < |steps|
    requires steps[i].Applied? && steps[i].ok && steps[i + 1].Applied? && steps[i + 1].plan == steps[i].plan
    ensures machines[i + 2].chains == machines[i + 1].chains
  {
    assert Happens(steps[i], machines[i], machines[i + 1]);
    assert Happens(steps[i + 1], machines[i + 1], machines[i + 2]);
  }
}
