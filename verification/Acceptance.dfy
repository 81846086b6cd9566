/** What acceptance by the validators means, and what follows from it. */
module Acceptance {
  import opened Wrappers
  import opened RuleTypes
  import opened Drafts
  import opened GroupGraph
  import opened Checks

  // ----- proxy-groups

  ghost predicate GoodRef(m: RefDraft, numGroups: nat) {
    && KnownPolicy(m.kind)
    && (m.inboundID.Some? <==> m.kind == POLICY_INBOUND)
    && (m.groupIdx.Some? <==> m.kind == POLICY_GROUP)
    && (m.groupIdx.Some? ==> 0 <= m.groupIdx.value < numGroups)
  }

  ghost predicate GoodGroup(d: GroupDraft, numGroups: nat) {
    && d.name != ""
    && KnownGroupType(d.typ)
    && d.members != []
    && (d.url != "" || d.interval.Some? || d.lazy.Some? ==> UsesHealthCheck(d.typ))
    && (d.tolerance.Some? ==> UsesTolerance(d.typ))
    && forall m :: m in d.members ==> GoodRef(m, numGroups)
  }

  ghost predicate GoodGroups(groups: seq<GroupDraft>) {
    && (forall g :: 0 <= g < |groups| ==> GoodGroup(groups[g], |groups|))
    && (forall g, h :: 0 <= h < g < |groups| ==> groups[h].name != groups[g].name)
    && !HasCycle(groups)
  }

  ghost predicate GroupsAccepted(groups: seq<GroupDraft>) {
    First(ProxyGroupChecks(groups)) == None
  }

  lemma {:induction false} GoodMembers(members: seq<RefDraft>, numGroups: nat)
    ensures AllOk(MemberChecks(members, numGroups)) <==> forall m :: m in members ==> GoodRef(m, numGroups)
  {
    if members == [] {
    } else {
      var front, last := members[..|members| - 1], members[|members| - 1];
      GoodMembers(front, numGroups);
      AllOkConcat(MemberChecks(front, numGroups), RefChecks(last, numGroups));
      GoodRefChecks(last, numGroups);
      assert members == front + [last];
    }
  }

  lemma {:induction false} GoodRefChecks(m: RefDraft, numGroups: nat)
    ensures AllOk(RefChecks(m, numGroups)) <==> GoodRef(m, numGroups)
  {
    var c := RefChecks(m, numGroups);
    assert AllOk(c) <==> c[0].ok && c[1].ok && c[2].ok && c[3].ok;
  }

  lemma {:induction false} GoodGroupChecks(groups: seq<GroupDraft>, g: nat)
    requires g < |groups|
    ensures AllOk(GroupChecks(groups, g)) <==> GoodGroup(groups[g], |groups|) && FreshName(groups, g)
  {
    var c := LocalChecks(groups[g]);
    var unique, members := [Check(FreshName(groups, g), GroupNameTaken)], MemberChecks(groups[g].members, |groups|);
    assert AllOk(c) <==> c[0].ok && c[1].ok && c[2].ok && c[3].ok && c[4].ok;
    GoodMembers(groups[g].members, |groups|);
    assert AllOk(unique) <==> unique[0].ok;
    AllOkConcat(unique, members);
    AllOkConcat(c, unique + members);
  }

  lemma {:induction false} GoodUpTo(groups: seq<GroupDraft>, n: nat)
    requires n <= |groups|
    ensures AllOk(GroupChecksUpTo(groups, n))
       <==> forall g :: 0 <= g < n ==> GoodGroup(groups[g], |groups|) && FreshName(groups, g)
  {
    hide GroupChecks, GoodGroup, FreshName;
    if n == 0 {
    } else {
      GoodUpTo(groups, n - 1);
      AllOkConcat(GroupChecksUpTo(groups, n - 1), GroupChecks(groups, n - 1));
      GoodGroupChecks(groups, n - 1);
    }
  }

  /** Accepted groups are exactly those that satisfy the declarative conjunction. */
  lemma {:induction false} AcceptedIffGoodGroups(groups: seq<GroupDraft>)
    ensures GroupsAccepted(groups) <==> GoodGroups(groups)
  {
    hide GoodGroup;
    var last := [Check(!HasCycle(groups), GroupCycle)];
    FirstMeans(ProxyGroupChecks(groups));
    GoodUpTo(groups, |groups|);
    AllOkConcat(GroupChecksUpTo(groups, |groups|), last);
    assert AllOk(last) <==> last[0].ok;
  }

  // ----- routing rules

  ghost predicate GoodNode(r: RuleDraft, top: bool, numGroups: nat, numProviders: nat) {
    && KnownRule(r.typ)
    && (r.value.Some? <==> Plain(r.typ))
    && (r.value.Some? ==> r.value.value != "")
    && (r.providerIdx.Some? <==> r.typ == "RULE-SET")
    && (r.providerIdx.Some? ==> 0 <= r.providerIdx.value < numProviders)
    && (r.target.Some? <==> top)
    && (r.target.Some? ==> GoodRef(r.target.value, numGroups))
    && (r.noResolve == Some(true) ==> top && SupportsNoResolve(r.typ))
    && (IsMatch(r.typ) ==> top)
    && (match r.typ
        case "NOT" => |r.children| == 1
        case "AND" => |r.children| >= 2
        case "OR" => |r.children| >= 2
        case _ => r.children == [])
  }

  ghost predicate GoodTree(r: RuleDraft, numGroups: nat, numProviders: nat) {
    forall x :: x in Nodes(r, true) ==> GoodNode(x.rule, x.top, numGroups, numProviders)
  }

  /** A MATCH stands last, hence at most once. */
  ghost predicate MatchLast(rules: seq<RuleDraft>) {
    forall i :: 0 <= i < |rules| && IsMatch(rules[i].typ) ==> i == |rules| - 1
  }

  ghost predicate GoodRules(rules: seq<RuleDraft>, numGroups: nat, numProviders: nat) {
    && (forall i :: 0 <= i < |rules| ==> GoodTree(rules[i], numGroups, numProviders))
    && MatchLast(rules)
  }

  ghost predicate RulesAccepted(rules: seq<RuleDraft>, numGroups: nat, numProviders: nat) {
    First(RoutingChecks(rules, numGroups, numProviders)) == None
  }

  lemma {:induction false} GoodNodeChecks(r: RuleDraft, top: bool, numGroups: nat, numProviders: nat)
    ensures AllOk(NodeChecks(r, top, numGroups, numProviders)) <==> GoodNode(r, top, numGroups, numProviders)
  {
    var kind, target, place := TypeChecks(r), TargetChecks(r, top, numGroups), PlaceChecks(r, top, numProviders);
    SpecialTypes(r.typ);
    AllOkConcat(target, place);
    AllOkConcat(kind, target + place);
    assert AllOk(kind)
      <==> kind[0].ok && kind[1].ok && kind[2].ok && kind[3].ok && kind[4].ok && kind[5].ok && kind[6].ok && kind[7].ok;
    assert AllOk(place) <==> place[0].ok && place[1].ok && place[2].ok && place[3].ok && place[4].ok;
    GoodTargetChecks(r, top, numGroups);
  }

  lemma {:induction false} GoodTargetChecks(r: RuleDraft, top: bool, numGroups: nat)
    ensures AllOk(TargetChecks(r, top, numGroups))
       <==> (r.target.Some? <==> top) && (r.target.Some? ==> GoodRef(r.target.value, numGroups))
  {
    var presence := [Check(top ==> r.target.Some?, TargetRequired), Check(!top ==> r.target.None?, ChildTarget)];
    assert AllOk(presence) <==> presence[0].ok && presence[1].ok;
    if top && r.target.Some? {
      GoodRefChecks(r.target.value, numGroups);
      AllOkConcat(presence, RefChecks(r.target.value, numGroups));
    } else {
      assert TargetChecks(r, top, numGroups) == presence;
    }
  }

  lemma {:induction false} GoodTreeChecks(r: RuleDraft, numGroups: nat, numProviders: nat)
    ensures AllOk(ChecksOf(Nodes(r, true), numGroups, numProviders)) <==> GoodTree(r, numGroups, numProviders)
  {
    hide NodeChecks, GoodNode, Nodes;
    ChecksOfAllOk(Nodes(r, true), numGroups, numProviders);
    forall x: Node
      ensures AllOk(NodeChecks(x.rule, x.top, numGroups, numProviders))
         <==> GoodNode(x.rule, x.top, numGroups, numProviders)
    {
      GoodNodeChecks(x.rule, x.top, numGroups, numProviders);
    }
  }

  lemma {:induction false} GoodRulesUpTo(rules: seq<RuleDraft>, n: nat, numGroups: nat, numProviders: nat)
    requires n <= |rules|
    ensures AllOk(RoutingChecksUpTo(rules, n, numGroups, numProviders))
       <==> forall i :: 0 <= i < n ==>
              GoodTree(rules[i], numGroups, numProviders) && (IsMatch(rules[i].typ) ==> i == |rules| - 1)
  {
    hide ChecksOf, GoodTree;
    if n == 0 {
    } else {
      var before := RoutingChecksUpTo(rules, n - 1, numGroups, numProviders);
      var tree := ChecksOf(Nodes(rules[n - 1], true), numGroups, numProviders);
      var last := [Check(IsMatch(rules[n - 1].typ) ==> n == |rules|, MatchNotLast)];
      GoodRulesUpTo(rules, n - 1, numGroups, numProviders);
      GoodTreeChecks(rules[n - 1], numGroups, numProviders);
      AllOkConcat(before, tree);
      AllOkConcat(before + tree, last);
      assert AllOk(last) <==> last[0].ok;
    }
  }

  /** Accepted rules are exactly those whose every node, at any depth, is well formed, with MATCH last. */
  lemma {:induction false} AcceptedIffGoodRules(rules: seq<RuleDraft>, numGroups: nat, numProviders: nat)
    ensures RulesAccepted(rules, numGroups, numProviders) <==> GoodRules(rules, numGroups, numProviders)
  {
    hide GoodTree;
    FirstMeans(RoutingChecks(rules, numGroups, numProviders));
    GoodRulesUpTo(rules, |rules|, numGroups, numProviders);
  }

  /** More groups or providers never turn accepted rules into rejected ones. */
  lemma {:induction false} AcceptanceIsMonotone(rules: seq<RuleDraft>, numGroups: nat, numProviders: nat,
                                                moreGroups: nat, moreProviders: nat)
    requires RulesAccepted(rules, numGroups, numProviders)
    requires numGroups <= moreGroups && numProviders <= moreProviders
    ensures RulesAccepted(rules, moreGroups, moreProviders)
  {
    AcceptedIffGoodRules(rules, numGroups, numProviders);
    AcceptedIffGoodRules(rules, moreGroups, moreProviders);
    forall i, x | 0 <= i < |rules| && x in Nodes(rules[i], true)
      ensures GoodNode(x.rule, x.top, moreGroups, moreProviders)
    {
      assert GoodTree(rules[i], numGroups, numProviders);
      assert GoodNode(x.rule, x.top, numGroups, numProviders);
    }
  }

  // ----- the shape of accepted trees

  ghost function CountJunctions(nodes: seq<Node>): nat {
    if nodes == [] then 0
    else
      var last := nodes[|nodes| - 1].rule;
      CountJunctions(nodes[..|nodes| - 1]) + if last.typ == "AND" || last.typ == "OR" then 1 else 0
  }

  ghost function CountLeaves(nodes: seq<Node>): nat {
    if nodes == [] then 0
    else CountLeaves(nodes[..|nodes| - 1]) + if nodes[|nodes| - 1].rule.children == [] then 1 else 0
  }

  /** The counts are those of the places where such nodes stand. */
  lemma {:induction false} CountsMean(nodes: seq<Node>)
    ensures CountJunctions(nodes)
         == |set k | 0 <= k < |nodes| && (nodes[k].rule.typ == "AND" || nodes[k].rule.typ == "OR")|
    ensures CountLeaves(nodes) == |set k | 0 <= k < |nodes| && nodes[k].rule.children == []|
  {
    var junctions := set k | 0 <= k < |nodes| && (nodes[k].rule.typ == "AND" || nodes[k].rule.typ == "OR");
    var leaves := set k | 0 <= k < |nodes| && nodes[k].rule.children == [];
    JunctionsCounted(nodes, junctions);
    LeavesCounted(nodes, leaves);
  }

  lemma {:induction false} JunctionsCounted(nodes: seq<Node>, places: set<int>)
    requires forall k :: k in places <==>
               0 <= k < |nodes| && (nodes[k].rule.typ == "AND" || nodes[k].rule.typ == "OR")
    ensures CountJunctions(nodes) == |places|
  {
    if nodes == [] {
      assert forall k :: k !in places;
      assert places == {};
    } else {
      JunctionsCounted(nodes[..|nodes| - 1], places - {|nodes| - 1});
    }
  }

  lemma {:induction false} LeavesCounted(nodes: seq<Node>, places: set<int>)
    requires forall k :: k in places <==> 0 <= k < |nodes| && nodes[k].rule.children == []
    ensures CountLeaves(nodes) == |places|
  {
    if nodes == [] {
      assert forall k :: k !in places;
      assert places == {};
    } else {
      LeavesCounted(nodes[..|nodes| - 1], places - {|nodes| - 1});
    }
  }

  lemma {:induction false} CountsConcat(a: seq<Node>, b: seq<Node>)
    ensures CountJunctions(a + b) == CountJunctions(a) + CountJunctions(b)
    ensures CountLeaves(a + b) == CountLeaves(a) + CountLeaves(b)
  {
    if b == [] {
      assert a + b == a;
    } else {
      CountsConcat(a, b[..|b| - 1]);
      assert (a + b)[..|a + b| - 1] == a + b[..|b| - 1];
    }
  }

  /** An accepted tree has fewer AND and OR nodes than leaves, however deep and however many NOT nodes. */
  lemma {:induction false} FewJunctions(r: RuleDraft, top: bool, numGroups: nat, numProviders: nat)
    requires forall x :: x in Nodes(r, top) ==> GoodNode(x.rule, x.top, numGroups, numProviders)
    ensures CountJunctions(Nodes(r, top)) + 1 <= CountLeaves(Nodes(r, top))
    decreases r, 1
  {
    var below := ForestNodes(r.children);
    assert Node(r, top) in Nodes(r, top);
    FewJunctionsBelow(r.children, numGroups, numProviders);
    CountsConcat([Node(r, top)], below);
    assert [Node(r, top)][..0] == [];
  }

  lemma {:induction false} FewJunctionsBelow(rs: seq<RuleDraft>, numGroups: nat, numProviders: nat)
    requires forall x :: x in ForestNodes(rs) ==> GoodNode(x.rule, x.top, numGroups, numProviders)
    ensures CountJunctions(ForestNodes(rs)) + |rs| <= CountLeaves(ForestNodes(rs))
    decreases rs, 0
  {
    if rs == [] {
    } else {
      FewJunctions(rs[0], false, numGroups, numProviders);
      FewJunctionsBelow(rs[1..], numGroups, numProviders);
      CountsConcat(Nodes(rs[0], false), ForestNodes(rs[1..]));
    }
  }
}
