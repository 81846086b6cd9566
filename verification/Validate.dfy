/** The validators of proxy-groups and routing rules, proved against the lists of checks. */
module Validate {
  import opened Wrappers
  import opened RuleTypes
  import opened Drafts
  import opened GroupGraph
  import opened Checks
  import CyclicGroups

  function ValidateRef(ref: RefDraft, numGroups: nat): Option<Error> {
    var err := ref.Validate();
    if err.Some? then err
    else if ref.kind == POLICY_GROUP
            && (ref.groupIdx.None? || ref.groupIdx.value < 0 || ref.groupIdx.value >= numGroups)
    then Some(GroupRefRange)
    else None
  }

  lemma {:induction false} RefFirst(ref: RefDraft, numGroups: nat)
    ensures ValidateRef(ref, numGroups) == First(RefChecks(ref, numGroups))
  {
    Unroll(RefChecks(ref, numGroups));
  }

  // ----- proxy-groups

  lemma {:induction false} GroupFirst(groups: seq<GroupDraft>, g: nat)
    requires g < |groups|
    ensures First(GroupChecks(groups, g)) ==
            if groups[g].Validate().Some? then groups[g].Validate()
            else if !FreshName(groups, g) then Some(GroupNameTaken)
            else First(MemberChecks(groups[g].members, |groups|))
  {
    var unique, members := [Check(FreshName(groups, g), GroupNameTaken)], MemberChecks(groups[g].members, |groups|);
    Unroll(LocalChecks(groups[g]));
    FirstConcat(unique, members);
    FirstConcat(LocalChecks(groups[g]), unique + members);
  }

  lemma {:induction false} MemberFirst(members: seq<RefDraft>, k: nat, n: nat)
    requires k <= |members| && First(MemberChecks(members[..k], n)).Some?
    ensures First(MemberChecks(members, n)) == First(MemberChecks(members[..k], n))
  {
    if k < |members| {
      var last := |members| - 1;
      assert members[..last][..k] == members[..k];
      MemberFirst(members[..last], k, n);
      FirstConcat(MemberChecks(members[..last], n), RefChecks(members[last], n));
    } else {
      assert members[..k] == members;
    }
  }

  lemma {:induction false} UpToFirst(groups: seq<GroupDraft>, i: nat, n: nat)
    requires i <= n <= |groups| && First(GroupChecksUpTo(groups, i)).Some?
    ensures First(GroupChecksUpTo(groups, n)) == First(GroupChecksUpTo(groups, i))
  {
    if i == n {
    } else {
      UpToFirst(groups, i, n - 1);
      FirstConcat(GroupChecksUpTo(groups, n - 1), GroupChecks(groups, n - 1));
    }
  }

  /** What group i decides when all groups before it passed. */
  lemma {:induction false} GroupDecides(groups: seq<GroupDraft>, i: nat)
    requires i < |groups| && First(GroupChecksUpTo(groups, i)) == None
    ensures First(GroupChecksUpTo(groups, i + 1)) == First(GroupChecks(groups, i))
    ensures First(GroupChecks(groups, i)).Some? ==> First(ProxyGroupChecks(groups)) == First(GroupChecks(groups, i))
  {
    FirstConcat(GroupChecksUpTo(groups, i), GroupChecks(groups, i));
    if First(GroupChecks(groups, i)).Some? {
      UpToFirst(groups, i + 1, |groups|);
      FirstConcat(GroupChecksUpTo(groups, |groups|), [Check(!HasCycle(groups), GroupCycle)]);
    }
  }

  /** What the search for a cycle decides when all groups passed. */
  lemma {:induction false} CycleDecides(groups: seq<GroupDraft>)
    requires First(GroupChecksUpTo(groups, |groups|)) == None
    ensures First(ProxyGroupChecks(groups)) == if HasCycle(groups) then Some(GroupCycle) else None
  {
    FirstConcat(GroupChecksUpTo(groups, |groups|), [Check(!HasCycle(groups), GroupCycle)]);
  }

  /** The inner loop: the references of one group. */
  method ValidateMembers(members: seq<RefDraft>, numGroups: nat) returns (err: Option<Error>)
    ensures err == First(MemberChecks(members, numGroups))
  {
    for k := 0 to |members|
      invariant First(MemberChecks(members[..k], numGroups)) == None
    {
      err := ValidateRef(members[k], numGroups);
      RefFirst(members[k], numGroups);
      assert members[..k + 1][..k] == members[..k];
      FirstConcat(MemberChecks(members[..k], numGroups), RefChecks(members[k], numGroups));
      if err.Some? {
        MemberFirst(members, k + 1, numGroups);
        return;
      }
    }
    assert members[..|members|] == members;
    err := None;
  }

  /**
   The first error in the order group, check, member; a repeated name is reported at the first
   group that repeats it, and the cycle only when every other check passes.
   */
  method ValidateProxyGroups(groups: seq<GroupDraft>) returns (err: Option<Error>)
    ensures err == First(ProxyGroupChecks(groups))
  {
    hide GroupChecks, ProxyGroupChecks;
    var seen: set<string> := {};
    for i := 0 to |groups|
      invariant First(GroupChecksUpTo(groups, i)) == None
      invariant seen == set h | 0 <= h < i :: groups[h].name
    {
      var g := groups[i];
      GroupFirst(groups, i);
      GroupDecides(groups, i);
      err := g.Validate();
      if err.Some? {
        return;
      }
      if g.name in seen {
        return Some(GroupNameTaken);
      }
      seen := seen + {g.name};
      err := ValidateMembers(g.members, |groups|);
      if err.Some? {
        return;
      }
    }
    CycleDecides(groups);
    var cyclic, _, _ := CyclicGroups.CyclicGroups(groups);
    err := if cyclic then Some(GroupCycle) else None;
  }

  // ----- routing rules

  /**
   The checks of one rule node. The provider index is known to be present where it is
   compared, because the per-type check ran before.
   */
  function NodeError(r: RuleDraft, top: bool, numGroups: nat, numProviders: nat): Option<Error> {
    var local := r.Validate();
    if local.Some? then local
    else if top && r.target.None? then Some(TargetRequired)
    else if !top && r.target.Some? then Some(ChildTarget)
    else
      var ref := if top then ValidateRef(r.target.value, numGroups) else None;
      if ref.Some? then ref
      else if !top && IsMatch(r.typ) then Some(MatchChild)
      else if !top && r.noResolve == Some(true) then Some(NoResolveUnsupported)
      else if TakesProvider(r.typ) && (r.providerIdx.value < 0 || r.providerIdx.value >= numProviders) then
        Some(ProviderRefRange)
      else if IsLogical(r.typ) && r.typ == "NOT" && |r.children| != 1 then Some(NotArity)
      else if IsLogical(r.typ) && r.typ != "NOT" && |r.children| < 2 then Some(LogicalArity)
      else None
  }

  /** One rule node and its subtree. */
  function ValidateRule(r: RuleDraft, top: bool, numGroups: nat, numProviders: nat): Option<Error>
    decreases r, 1
  {
    var err := NodeError(r, top, numGroups, numProviders);
    if err.Some? then err
    else if IsLogical(r.typ) then ValidateChildren(r.children, numGroups, numProviders)
    else None
  }

  function ValidateChildren(rs: seq<RuleDraft>, numGroups: nat, numProviders: nat): Option<Error>
    decreases rs, 0
  {
    if rs == [] then None
    else
      var err := ValidateRule(rs[0], false, numGroups, numProviders);
      if err.Some? then err else ValidateChildren(rs[1..], numGroups, numProviders)
  }

  lemma {:induction false} TypeFirst(r: RuleDraft)
    ensures First(TypeChecks(r)) == r.Validate()
  {
    SpecialTypes(r.typ);
    Unroll(TypeChecks(r));
  }

  lemma {:induction false} TargetFirst(r: RuleDraft, top: bool, numGroups: nat)
    ensures First(TargetChecks(r, top, numGroups)) ==
            if top && r.target.None? then Some(TargetRequired)
            else if !top && r.target.Some? then Some(ChildTarget)
            else if top then ValidateRef(r.target.value, numGroups) else None
  {
    var presence := [Check(top ==> r.target.Some?, TargetRequired), Check(!top ==> r.target.None?, ChildTarget)];
    Unroll(presence);
    if top && r.target.Some? {
      RefFirst(r.target.value, numGroups);
      FirstConcat(presence, RefChecks(r.target.value, numGroups));
    } else {
      assert TargetChecks(r, top, numGroups) == presence;
    }
  }

  lemma {:induction false} NodeFirst(r: RuleDraft, top: bool, numGroups: nat, numProviders: nat)
    ensures First(NodeChecks(r, top, numGroups, numProviders)) == NodeError(r, top, numGroups, numProviders)
  {
    var kind, target, place := TypeChecks(r), TargetChecks(r, top, numGroups), PlaceChecks(r, top, numProviders);
    SpecialTypes(r.typ);
    TypeFirst(r);
    TargetFirst(r, top, numGroups);
    Unroll(place);
    FirstConcat(target, place);
    FirstConcat(kind, target + place);
  }

  /** The recursive validator is the flat scan of all nodes of the tree, parents first. */
  lemma {:induction false} RuleFirst(r: RuleDraft, top: bool, numGroups: nat, numProviders: nat)
    ensures ValidateRule(r, top, numGroups, numProviders) == First(ChecksOf(Nodes(r, top), numGroups, numProviders))
    decreases r, 1
  {
    var own, below := NodeChecks(r, top, numGroups, numProviders), ForestNodes(r.children);
    NodeFirst(r, top, numGroups, numProviders);
    ForestFirst(r.children, numGroups, numProviders);
    assert ([Node(r, top)] + below)[1..] == below;
    FirstConcat(own, ChecksOf(below, numGroups, numProviders));
  }

  lemma {:induction false} ForestFirst(rs: seq<RuleDraft>, numGroups: nat, numProviders: nat)
    ensures ValidateChildren(rs, numGroups, numProviders) == First(ChecksOf(ForestNodes(rs), numGroups, numProviders))
    decreases rs, 0
  {
    if rs == [] {
    } else {
      RuleFirst(rs[0], false, numGroups, numProviders);
      ForestFirst(rs[1..], numGroups, numProviders);
      ChecksOfConcat(Nodes(rs[0], false), ForestNodes(rs[1..]), numGroups, numProviders);
      FirstConcat(ChecksOf(Nodes(rs[0], false), numGroups, numProviders),
                  ChecksOf(ForestNodes(rs[1..]), numGroups, numProviders));
    }
  }

  lemma {:induction false} RoutingUpToFirst(rules: seq<RuleDraft>, i: nat, n: nat, numGroups: nat, numProviders: nat)
    requires i <= n <= |rules| && First(RoutingChecksUpTo(rules, i, numGroups, numProviders)).Some?
    ensures First(RoutingChecksUpTo(rules, n, numGroups, numProviders)) ==
            First(RoutingChecksUpTo(rules, i, numGroups, numProviders))
  {
    hide ChecksOf, ValidateRule;
    if i == n {
    } else {
      RoutingUpToFirst(rules, i, n - 1, numGroups, numProviders);
      RuleDecides(rules, n - 1, numGroups, numProviders);
    }
  }

  lemma {:induction false} RuleDecides(rules: seq<RuleDraft>, i: nat, numGroups: nat, numProviders: nat)
    requires i < |rules|
    ensures First(RoutingChecksUpTo(rules, i + 1, numGroups, numProviders)) ==
            var before := First(RoutingChecksUpTo(rules, i, numGroups, numProviders));
            var here := ValidateRule(rules[i], true, numGroups, numProviders);
            if before.Some? then before
            else if here.Some? then here
            else if IsMatch(rules[i].typ) && i != |rules| - 1 then Some(MatchNotLast) else None
  {
    hide ChecksOf, ValidateRule;
    var before := RoutingChecksUpTo(rules, i, numGroups, numProviders);
    var tree := ChecksOf(Nodes(rules[i], true), numGroups, numProviders);
    var last := [Check(IsMatch(rules[i].typ) ==> i + 1 == |rules|, MatchNotLast)];
    RuleFirst(rules[i], true, numGroups, numProviders);
    FirstConcat(before, tree);
    FirstConcat(before + tree, last);
  }

  /** The first error in the order rule, node of its tree, and the place of a MATCH after its tree. */
  method ValidateRoutingRules(rules: seq<RuleDraft>, numGroups: nat, numProviders: nat) returns (err: Option<Error>)
    ensures err == First(RoutingChecks(rules, numGroups, numProviders))
  {
    hide ValidateRule;
    for i := 0 to |rules|
      invariant First(RoutingChecksUpTo(rules, i, numGroups, numProviders)) == None
    {
      RuleDecides(rules, i, numGroups, numProviders);
      err := ValidateRule(rules[i], true, numGroups, numProviders);
      if err.None? && IsMatch(rules[i].typ) && i != |rules| - 1 {
        err := Some(MatchNotLast);
      }
      if err.Some? {
        RoutingUpToFirst(rules, i + 1, |rules|, numGroups, numProviders);
        return;
      }
    }
    err := None;
  }
}
