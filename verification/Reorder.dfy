/**
 Reordering the groups of a draft and renumbering the in-range references to them. p maps an
 old index to the new one and q maps it back.
 */
module Reorder {
  import opened Wrappers
  import opened Drafts
  import opened GroupGraph
  import opened Checks
  import opened Acceptance
  import opened Validate

  ghost predicate Inverse(p: seq<nat>, q: seq<nat>) {
    && |p| == |q|
    && (forall i :: 0 <= i < |p| ==> p[i] < |q| && q[p[i]] == i)
    && (forall j :: 0 <= j < |q| ==> q[j] < |p| && p[q[j]] == j)
  }

  function RenumberRef(m: RefDraft, p: seq<nat>): RefDraft {
    if m.kind == POLICY_GROUP && m.groupIdx.Some? && 0 <= m.groupIdx.value < |p| then
      m.(groupIdx := Some(p[m.groupIdx.value]))
    else m
  }

  function RenumberGroup(d: GroupDraft, p: seq<nat>): GroupDraft {
    d.(members := seq(|d.members|, k requires 0 <= k < |d.members| => RenumberRef(d.members[k], p)))
  }

  function ReorderGroups(groups: seq<GroupDraft>, p: seq<nat>, q: seq<nat>): (r: seq<GroupDraft>)
    requires Inverse(p, q) && |p| == |groups|
  {
    seq(|groups|, j requires 0 <= j < |groups| => RenumberGroup(groups[q[j]], p))
  }

  function RenumberRule(r: RuleDraft, p: seq<nat>): RuleDraft
    decreases r, 1
  {
    r.(target := if r.target.Some? then Some(RenumberRef(r.target.value, p)) else None,
       children := RenumberRules(r.children, p))
  }

  function RenumberRules(rs: seq<RuleDraft>, p: seq<nat>): (out: seq<RuleDraft>)
    ensures |out| == |rs|
    ensures forall i :: 0 <= i < |rs| ==> out[i] == RenumberRule(rs[i], p)
    decreases rs, 0
  {
    if rs == [] then [] else [RenumberRule(rs[0], p)] + RenumberRules(rs[1..], p)
  }

  /** Each group moves to its new place, and each of its references leads to where its group moved. */
  lemma {:induction false} ReorderMoves(groups: seq<GroupDraft>, p: seq<nat>, q: seq<nat>, i: nat)
    requires Inverse(p, q) && |p| == |groups| && i < |groups|
    ensures var moved := ReorderGroups(groups, p, q);
            && |moved| == |groups| && moved[p[i]].(members := []) == groups[i].(members := [])
            && |moved[p[i]].members| == |groups[i].members|
            && forall k :: 0 <= k < |groups[i].members| ==> LeadsAlong(groups[i].members[k], moved[p[i]].members[k], p)
  {
  }

  /** m' is m, but that a reference to group j is one to the place that j moves to. */
  ghost predicate LeadsAlong(m: RefDraft, m': RefDraft, p: seq<nat>) {
    && m'.kind == m.kind && m'.inboundID == m.inboundID
    && m'.groupIdx == match Target(m, |p|)
                      case Some(j) => Some(p[j])
                      case None => m.groupIdx
  }

  /** A rule keeps all but its targets, at every depth, and those lead along. */
  lemma {:induction false} RenumberMoves(r: RuleDraft, p: seq<nat>)
    ensures var r' := RenumberRule(r, p);
            && r'.(target := None, children := []) == r.(target := None, children := [])
            && r'.target.Some? == r.target.Some?
            && (r.target.Some? ==> LeadsAlong(r.target.value, r'.target.value, p))
            && |r'.children| == |r.children|
            && forall k :: 0 <= k < |r.children| ==> r'.children[k] == RenumberRule(r.children[k], p)
  {
  }

  // ----- groups

  lemma {:induction false} ReorderBack(groups: seq<GroupDraft>, p: seq<nat>, q: seq<nat>)
    requires Inverse(p, q) && |p| == |groups|
    ensures ReorderGroups(ReorderGroups(groups, p, q), q, p) == groups
  {
    forall i | 0 <= i < |groups|
      ensures RenumberGroup(RenumberGroup(groups[i], p), q) == groups[i]
    {
      var d := groups[i];
      forall k | 0 <= k < |d.members| ensures RenumberRef(RenumberRef(d.members[k], p), q) == d.members[k] {
      }
      assert RenumberGroup(RenumberGroup(d, p), q).members == d.members;
    }
  }

  lemma {:induction false} ReorderEdge(groups: seq<GroupDraft>, p: seq<nat>, q: seq<nat>, i: nat, j: nat)
    requires Inverse(p, q) && |p| == |groups| && Edge(groups, i, j)
    ensures j < |p| && Edge(ReorderGroups(groups, p, q), p[i], p[j])
  {
    var d := groups[i];
    var k :| 0 <= k < |d.members| && Target(d.members[k], |groups|) == Some(j);
    var d' := ReorderGroups(groups, p, q)[p[i]];
    assert d'.members[k] == RenumberRef(d.members[k], p);
  }

  lemma {:induction false} ReorderCycle(groups: seq<GroupDraft>, p: seq<nat>, q: seq<nat>)
    requires Inverse(p, q) && |p| == |groups| && HasCycle(groups)
    ensures HasCycle(ReorderGroups(groups, p, q))
  {
    var w :| ClosedWalk(groups, w);
    var v := seq(|w|, k requires 0 <= k < |w| => p[w[k]]);
    forall k | 0 < k < |v| ensures Edge(ReorderGroups(groups, p, q), v[k - 1], v[k]) {
      ReorderEdge(groups, p, q, w[k - 1], w[k]);
    }
    assert ClosedWalk(ReorderGroups(groups, p, q), v);
  }

  lemma {:induction false} RenumberedGroupIsGood(d: GroupDraft, p: seq<nat>, q: seq<nat>)
    requires Inverse(p, q) && GoodGroup(RenumberGroup(d, p), |p|)
    ensures GoodGroup(d, |p|)
  {
    var d' := RenumberGroup(d, p);
    forall m | m in d.members ensures GoodRef(m, |p|) {
      var k :| 0 <= k < |d.members| && d.members[k] == m;
      assert d'.members[k] == RenumberRef(m, p);
      assert GoodRef(d'.members[k], |p|);
    }
  }

  lemma {:induction false} ReorderReflectsGood(groups: seq<GroupDraft>, p: seq<nat>, q: seq<nat>)
    requires Inverse(p, q) && |p| == |groups| && GoodGroups(ReorderGroups(groups, p, q))
    ensures GoodGroups(groups)
  {
    hide GoodGroup;
    var groups' := ReorderGroups(groups, p, q);
    if HasCycle(groups) {
      ReorderCycle(groups, p, q);
    }
    forall g | 0 <= g < |groups|
      ensures GoodGroup(groups[g], |groups|) && groups'[p[g]].name == groups[g].name
    {
      assert groups'[p[g]] == RenumberGroup(groups[g], p);
      RenumberedGroupIsGood(groups[g], p, q);
    }
    forall g, h | 0 <= h < g < |groups| ensures groups[h].name != groups[g].name {
      assert p[h] != p[g];
    }
  }

  /** Reordering the groups never changes whether they are accepted. */
  lemma {:induction false} ReorderKeepsGroupVerdict(groups: seq<GroupDraft>, p: seq<nat>, q: seq<nat>)
    requires Inverse(p, q) && |p| == |groups|
    ensures GroupsAccepted(groups) <==> GroupsAccepted(ReorderGroups(groups, p, q))
  {
    var groups' := ReorderGroups(groups, p, q);
    AcceptedIffGoodGroups(groups);
    AcceptedIffGoodGroups(groups');
    ReorderBack(groups, p, q);
    if GoodGroups(groups) {
      ReorderReflectsGood(groups', q, p);
    } else if GoodGroups(groups') {
      ReorderReflectsGood(groups, p, q);
    }
  }

  // ----- rules

  lemma {:induction false} RenumberKeepsRef(m: RefDraft, p: seq<nat>, q: seq<nat>)
    requires Inverse(p, q)
    ensures ValidateRef(RenumberRef(m, p), |p|) == ValidateRef(m, |p|)
  {
  }

  lemma {:induction false} RenumberKeepsNode(r: RuleDraft, top: bool, p: seq<nat>, q: seq<nat>, numProviders: nat)
    requires Inverse(p, q)
    ensures NodeError(RenumberRule(r, p), top, |p|, numProviders) == NodeError(r, top, |p|, numProviders)
  {
    hide ValidateRef;
    assert RenumberRule(r, p).Validate() == r.Validate();
    if r.target.Some? {
      RenumberKeepsRef(r.target.value, p, q);
    }
  }

  lemma {:induction false} RenumberKeepsRule(r: RuleDraft, top: bool, p: seq<nat>, q: seq<nat>, numProviders: nat)
    requires Inverse(p, q)
    ensures ValidateRule(RenumberRule(r, p), top, |p|, numProviders) == ValidateRule(r, top, |p|, numProviders)
    decreases r, 1
  {
    hide NodeError;
    RenumberKeepsNode(r, top, p, q, numProviders);
    RenumberKeepsChildren(r.children, p, q, numProviders);
  }

  lemma {:induction false} RenumberKeepsChildren(rs: seq<RuleDraft>, p: seq<nat>, q: seq<nat>, numProviders: nat)
    requires Inverse(p, q)
    ensures ValidateChildren(RenumberRules(rs, p), |p|, numProviders) == ValidateChildren(rs, |p|, numProviders)
    decreases rs, 0
  {
    hide ValidateRule;
    if rs == [] {
    } else {
      RenumberKeepsRule(rs[0], false, p, q, numProviders);
      RenumberKeepsChildren(rs[1..], p, q, numProviders);
      assert RenumberRules(rs, p)[1..] == RenumberRules(rs[1..], p);
    }
  }

  lemma {:induction false} RenumberKeepsUpTo(rules: seq<RuleDraft>, n: nat, p: seq<nat>, q: seq<nat>, numProviders: nat)
    requires Inverse(p, q) && n <= |rules|
    ensures First(RoutingChecksUpTo(RenumberRules(rules, p), n, |p|, numProviders))
         == First(RoutingChecksUpTo(rules, n, |p|, numProviders))
  {
    hide ValidateRule, ChecksOf;
    if n == 0 {
    } else {
      hide RoutingChecksUpTo, First, Inverse;
      RenumberKeepsUpTo(rules, n - 1, p, q, numProviders);
      RenumberKeepsRule(rules[n - 1], true, p, q, numProviders);
      RuleDecides(rules, n - 1, |p|, numProviders);
      RuleDecides(RenumberRules(rules, p), n - 1, |p|, numProviders);
    }
  }

  /** Nor does it change what is decided about the rules: even the reported error stays the same. */
  lemma {:induction false} ReorderKeepsRuleVerdict(rules: seq<RuleDraft>, p: seq<nat>, q: seq<nat>, numProviders: nat)
    requires Inverse(p, q)
    ensures First(RoutingChecks(RenumberRules(rules, p), |p|, numProviders)) ==
            First(RoutingChecks(rules, |p|, numProviders))
  {
    RenumberKeepsUpTo(rules, |rules|, p, q, numProviders);
  }
}
