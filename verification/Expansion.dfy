/**
 Following the group references of a group list down to the policies they end in. The search
 for a cycle is what makes this expansion finite, and nothing less would: it is finite for
 every group exactly when there is no closed walk.
 */
module Expansion {
  import opened Wrappers
  import opened Drafts
  import opened GroupGraph
  import opened Acceptance

  /** The built-in and inbound policies group i ends in, in order; None when the budget runs out. */
  ghost function Expand(groups: seq<GroupDraft>, i: nat, budget: nat): Option<seq<RefDraft>>
    requires i < |groups|
    decreases budget, 1, 0
  {
    if budget == 0 then None else ExpandMembers(groups, groups[i].members, budget)
  }

  ghost function ExpandMembers(groups: seq<GroupDraft>, members: seq<RefDraft>, budget: nat): Option<seq<RefDraft>>
    requires budget > 0
    decreases budget, 0, |members|
  {
    if members == [] then Some([])
    else
      var target := Target(members[0], |groups|);
      var head := if target.Some? then Expand(groups, target.value, budget - 1) else Some([members[0]]);
      var tail := ExpandMembers(groups, members[1..], budget);
      if head.None? || tail.None? then None else Some(head.value + tail.value)
  }

  /** A finished expansion goes through every reference of the list. */
  lemma {:induction false} MembersExpand(groups: seq<GroupDraft>, members: seq<RefDraft>, budget: nat)
    requires budget > 0
    ensures ExpandMembers(groups, members, budget).Some? <==>
              forall m :: m in members && Target(m, |groups|).Some? ==>
                Expand(groups, Target(m, |groups|).value, budget - 1).Some?
  {
    if members == [] {
    } else {
      MembersExpand(groups, members[1..], budget);
      assert members == [members[0]] + members[1..];
    }
  }

  /** A finished expansion outlasts every chain of references from its group. */
  lemma {:induction false} ChainNeedsBudget(groups: seq<GroupDraft>, w: seq<nat>, budget: nat)
    requires Walk(groups, w) && Expand(groups, w[0], budget).Some?
    ensures |w| <= budget
    decreases budget
  {
    if |w| < 2 {
    } else {
      MembersExpand(groups, groups[w[0]].members, budget);
      assert Edge(groups, w[0], w[1]);
      ChainNeedsBudget(groups, w[1..], budget - 1);
    }
  }

  /** Along a chain ending in i, a budget for the groups not yet on the chain suffices. */
  lemma {:induction false} BudgetByChains(groups: seq<GroupDraft>, i: nat, w: seq<nat>)
    requires !HasCycle(groups) && Walk(groups, w) && w[|w| - 1] == i && |w| <= |groups|
    ensures Expand(groups, i, |groups| + 1 - |w|).Some?
    decreases |groups| - |w|
  {
    var budget := |groups| + 1 - |w|;
    forall m | m in groups[i].members && Target(m, |groups|).Some?
      ensures Expand(groups, Target(m, |groups|).value, budget - 1).Some?
    {
      var j := Target(m, |groups|).value;
      assert Edge(groups, i, j);
      ChainsAreShort(groups, w + [j]);
      BudgetByChains(groups, j, w + [j]);
    }
    MembersExpand(groups, groups[i].members, budget);
  }

  lemma {:induction false} Pump(groups: seq<GroupDraft>, w: seq<nat>, n: nat) returns (v: seq<nat>)
    requires ClosedWalk(groups, w)
    ensures Walk(groups, v) && v[0] == w[0] && v[|v| - 1] == w[0] && |v| > n
  {
    if n == 0 {
      v := w;
    } else {
      var shorter := Pump(groups, w, n - 1);
      v := w[..|w| - 1] + shorter;
    }
  }

  /**
   Without a closed walk every group expands within as many levels as there are groups; with
   one, some group does not expand within any number of levels.
   */
  lemma {:induction false} FiniteIffAcyclic(groups: seq<GroupDraft>, budget: nat)
    ensures !HasCycle(groups) <==> forall i :: 0 <= i < |groups| ==> Expand(groups, i, |groups|).Some?
    ensures HasCycle(groups) ==> exists i :: 0 <= i < |groups| && Expand(groups, i, budget).None?
  {
    if !HasCycle(groups) {
      forall i | 0 <= i < |groups| ensures Expand(groups, i, |groups|).Some? {
        BudgetByChains(groups, i, [i]);
      }
    } else {
      NeverExpands(groups, |groups|);
      NeverExpands(groups, budget);
    }
  }

  /** A group on a closed walk needs more levels than any number of them. */
  lemma {:induction false} NeverExpands(groups: seq<GroupDraft>, budget: nat)
    requires HasCycle(groups)
    ensures exists i :: 0 <= i < |groups| && Expand(groups, i, budget).None?
  {
    var w :| ClosedWalk(groups, w);
    var v := Pump(groups, w, budget);
    if Expand(groups, v[0], budget).Some? {
      ChainNeedsBudget(groups, v, budget);
    }
    assert Expand(groups, v[0], budget).None?;
  }

  /** Everything an accepted group ends in is a well-formed built-in or inbound policy, and there is something. */
  lemma {:induction false} ExpansionEndsInPolicies(groups: seq<GroupDraft>, members: seq<RefDraft>, budget: nat)
    requires budget > 0 && ExpandMembers(groups, members, budget).Some?
    requires forall g :: 0 <= g < |groups| ==> GoodGroup(groups[g], |groups|)
    requires forall m :: m in members ==> GoodRef(m, |groups|)
    ensures members != [] ==> ExpandMembers(groups, members, budget).value != []
    ensures forall m :: m in ExpandMembers(groups, members, budget).value ==>
              GoodRef(m, |groups|) && m.kind != POLICY_GROUP
    decreases budget, |members|
  {
    hide GoodGroup;
    if members == [] {
      assert ExpandMembers(groups, members, budget).value == [];
    } else {
      var first, target := members[0], Target(members[0], |groups|);
      assert members == [first] + members[1..] && first in members;
      if target.Some? {
        var next := groups[target.value];
        HasMembers(next, |groups|);
        ExpansionEndsInPolicies(groups, next.members, budget - 1);
      } else {
        assert GoodRef(first, |groups|) && first.kind != POLICY_GROUP;
      }
      ExpansionEndsInPolicies(groups, members[1..], budget);
    }
  }

  // ----- what an expansion holds

  lemma {:induction false} MembersHold(groups: seq<GroupDraft>, members: seq<RefDraft>, budget: nat, m: RefDraft)
    requires budget > 0 && ExpandMembers(groups, members, budget).Some?
    ensures forall x :: x in members && Target(x, |groups|).Some? ==>
              Expand(groups, Target(x, |groups|).value, budget - 1).Some?
    ensures m in ExpandMembers(groups, members, budget).value <==>
            || (m in members && Target(m, |groups|).None?)
            || exists x :: x in members && Target(x, |groups|).Some?
                           && m in Expand(groups, Target(x, |groups|).value, budget - 1).value
  {
    hide Target, Expand;
    MembersExpand(groups, members, budget);
    if members == [] {
    } else {
      assert members == [members[0]] + members[1..];
      MembersHold(groups, members[1..], budget, m);
    }
  }

  /** m is a member, but no group reference, of a group that a chain of references from i leads to. */
  ghost predicate Reaches(groups: seq<GroupDraft>, i: nat, m: RefDraft) {
    exists w :: Walk(groups, w) && w[0] == i && m in groups[w[|w| - 1]].members && Target(m, |groups|).None?
  }

  lemma {:induction false} ReachesOn(groups: seq<GroupDraft>, i: nat, j: nat, m: RefDraft)
    requires Edge(groups, i, j) && Reaches(groups, j, m)
    ensures Reaches(groups, i, m)
  {
    hide Edge, Target;
    var w :| Walk(groups, w) && w[0] == j && m in groups[w[|w| - 1]].members && Target(m, |groups|).None?;
    var longer := [i] + w;
    EdgeInside(groups, i, j);
    assert Walk(groups, longer) && longer[0] == i && longer[|longer| - 1] == w[|w| - 1];
  }

  lemma {:induction false} EdgeInside(groups: seq<GroupDraft>, i: nat, j: nat)
    requires Edge(groups, i, j)
    ensures i < |groups| && j < |groups|
  {
  }

  /** What a group reaches it has itself, or one of its references reaches it. */
  lemma {:induction false} ReachesStep(groups: seq<GroupDraft>, i: nat, m: RefDraft) returns (j: nat)
    requires i < |groups| && Reaches(groups, i, m) && m !in groups[i].members
    ensures Edge(groups, i, j) && Reaches(groups, j, m)
  {
    hide Edge, Target;
    var w :| Walk(groups, w) && w[0] == i && m in groups[w[|w| - 1]].members && Target(m, |groups|).None?;
    j := w[1];
    var rest := w[1..];
    assert Walk(groups, rest) && rest[0] == j && rest[|rest| - 1] == w[|w| - 1];
  }

  lemma {:induction false} HeldIsReached(groups: seq<GroupDraft>, i: nat, budget: nat, m: RefDraft)
    requires i < |groups| && Expand(groups, i, budget).Some? && m in Expand(groups, i, budget).value
    ensures Reaches(groups, i, m)
    decreases budget
  {
    hide Reaches;
    MembersExpand(groups, groups[i].members, budget);
    MembersHold(groups, groups[i].members, budget, m);
    if m in groups[i].members && Target(m, |groups|).None? {
      ReachesItself(groups, i, m);
    } else {
      var x :| x in groups[i].members && Target(x, |groups|).Some?
               && m in Expand(groups, Target(x, |groups|).value, budget - 1).value;
      var j := Target(x, |groups|).value;
      HeldIsReached(groups, j, budget - 1, m);
      ReachesOn(groups, i, j, m);
    }
  }

  lemma {:induction false} ReachesItself(groups: seq<GroupDraft>, i: nat, m: RefDraft)
    requires i < |groups| && m in groups[i].members && Target(m, |groups|).None?
    ensures Reaches(groups, i, m)
  {
    assert Walk(groups, [i]);
  }

  lemma {:induction false} ReachedIsHeld(groups: seq<GroupDraft>, i: nat, budget: nat, m: RefDraft)
    requires i < |groups| && Expand(groups, i, budget).Some? && Reaches(groups, i, m)
    ensures m in Expand(groups, i, budget).value
    decreases budget
  {
    hide Reaches, Edge, Target;
    MembersHold(groups, groups[i].members, budget, m);
    ReachedIsNoGroup(groups, i, m);
    if m in groups[i].members {
    } else {
      var j := ReachesStep(groups, i, m);
      var x := EdgeMember(groups, i, j);
      ReachedIsHeld(groups, j, budget - 1, m);
    }
  }

  lemma {:induction false} ReachedIsNoGroup(groups: seq<GroupDraft>, i: nat, m: RefDraft)
    requires Reaches(groups, i, m)
    ensures Target(m, |groups|).None?
  {
  }

  lemma {:induction false} EdgeMember(groups: seq<GroupDraft>, i: nat, j: nat) returns (x: RefDraft)
    requires Edge(groups, i, j)
    ensures i < |groups| && x in groups[i].members && Target(x, |groups|) == Some(j)
  {
    var k :| 0 <= k < |groups[i].members| && Target(groups[i].members[k], |groups|) == Some(j);
    x := groups[i].members[k];
  }

  /** An expansion holds exactly what its group reaches. */
  lemma {:induction false} ExpansionReaches(groups: seq<GroupDraft>, i: nat, budget: nat, m: RefDraft)
    requires i < |groups| && Expand(groups, i, budget).Some?
    ensures m in Expand(groups, i, budget).value <==> Reaches(groups, i, m)
  {
    hide Expand, Reaches;
    if m in Expand(groups, i, budget).value {
      HeldIsReached(groups, i, budget, m);
    }
    if Reaches(groups, i, m) {
      ReachedIsHeld(groups, i, budget, m);
    }
  }

  lemma {:induction false} HasMembers(d: GroupDraft, numGroups: nat)
    requires GoodGroup(d, numGroups)
    ensures d.members != [] && forall m :: m in d.members ==> GoodRef(m, numGroups)
  {
  }

  /**
   In an accepted list every chain of references visits at most as many groups as there are,
   and every group ends, within that many levels, in at least one real policy and only in those.
   */
  lemma {:induction false} AcceptedGroupsExpand(groups: seq<GroupDraft>, i: nat)
    requires GroupsAccepted(groups) && i < |groups|
    ensures forall w :: Walk(groups, w) ==> |w| <= |groups|
    ensures Expand(groups, i, |groups|).Some? && Expand(groups, i, |groups|).value != []
    ensures forall m :: m in Expand(groups, i, |groups|).value ==> GoodRef(m, |groups|) && m.kind != POLICY_GROUP
  {
    hide GroupsAccepted, GoodGroup, Walk;
    AcceptedIffGoodGroups(groups);
    HasMembers(groups[i], |groups|);
    FiniteIffAcyclic(groups, |groups|);
    forall w | Walk(groups, w) ensures |w| <= |groups| {
      ChainsAreShort(groups, w);
    }
    assert Expand(groups, i, |groups|).Some?;
    ExpansionEndsInPolicies(groups, groups[i].members, |groups|);
  }
}
