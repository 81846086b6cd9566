/**
 The specification of the validators: flat lists of named checks, in the order in which they
 are to be made. A validator is right when it returns the error of the first check that fails.
 */
module Checks {
  import opened Wrappers
  import opened RuleTypes
  import opened Drafts
  import opened GroupGraph

  datatype Check = Check(ok: bool, error: Error)

  ghost predicate AllOk(checks: seq<Check>) {
    forall k :: 0 <= k < |checks| ==> checks[k].ok
  }

  /** The error of the first failing check. */
  ghost function First(checks: seq<Check>): Option<Error> {
    if checks == [] then None else if !checks[0].ok then Some(checks[0].error) else First(checks[1..])
  }

  /** First is what it is called: None when all checks pass, else the error of a failing check with none before it. */
  lemma {:induction false} FirstMeans(checks: seq<Check>)
    ensures First(checks).None? <==> AllOk(checks)
    ensures First(checks).Some? ==>
              exists k :: 0 <= k < |checks| && !checks[k].ok && checks[k].error == First(checks).value
                          && AllOk(checks[..k])
  {
    if checks != [] && checks[0].ok {
      var rest := checks[1..];
      FirstMeans(rest);
      if First(rest).Some? {
        var k :| 0 <= k < |rest| && !rest[k].ok && rest[k].error == First(rest).value && AllOk(rest[..k]);
        assert checks[..k + 1] == [checks[0]] + rest[..k];
      } else {
        assert checks == [checks[0]] + rest;
      }
    } else if checks != [] {
      assert AllOk(checks[..0]);
    }
  }

  lemma {:induction false} FirstConcat(a: seq<Check>, b: seq<Check>)
    ensures First(a + b) == if First(a).Some? then First(a) else First(b)
  {
    if a == [] {
      assert a + b == b;
    } else {
      FirstConcat(a[1..], b);
      assert (a + b)[1..] == a[1..] + b;
    }
  }

  lemma {:induction false} UnrollAt(checks: seq<Check>, i: nat)
    requires i < |checks|
    ensures First(checks[i..]) == if checks[i].ok then First(checks[i + 1..]) else Some(checks[i].error)
  {
    assert checks[i..][1..] == checks[i + 1..];
  }

  /** First of a list of known length, one check at a time. */
  lemma {:induction false} Unroll(checks: seq<Check>)
    ensures checks[0..] == checks && First(checks[|checks|..]) == None
    ensures forall i {:trigger checks[i..]} :: 0 <= i < |checks| ==>
              First(checks[i..]) == if checks[i].ok then First(checks[i + 1..]) else Some(checks[i].error)
  {
    forall i | 0 <= i < |checks| {
      UnrollAt(checks, i);
    }
  }

  // ----- policy references

  ghost function RefChecks(m: RefDraft, numGroups: nat): seq<Check> {
    [ Check(KnownPolicy(m.kind), BadRef),
      Check(m.inboundID.Some? <==> m.kind == POLICY_INBOUND, BadRef),
      Check(m.groupIdx.Some? <==> m.kind == POLICY_GROUP, BadRef),
      Check(m.kind == POLICY_GROUP ==> m.groupIdx.Some? && 0 <= m.groupIdx.value < numGroups, GroupRefRange) ]
  }

  // ----- proxy-groups

  ghost function MemberChecks(members: seq<RefDraft>, numGroups: nat): seq<Check> {
    if members == [] then []
    else MemberChecks(members[..|members| - 1], numGroups) + RefChecks(members[|members| - 1], numGroups)
  }

  ghost predicate FreshName(groups: seq<GroupDraft>, g: nat)
    requires g < |groups|
  {
    forall h :: 0 <= h < g ==> groups[h].name != groups[g].name
  }

  /** The checks a group passes or fails by itself. */
  ghost function LocalChecks(d: GroupDraft): seq<Check> {
    [ Check(d.name != "", GroupNameEmpty),
      Check(KnownGroupType(d.typ), GroupUnknownType),
      Check(d.members != [], GroupNoMembers),
      Check(d.url != "" || d.interval.Some? || d.lazy.Some? ==> UsesHealthCheck(d.typ), GroupFieldNotAllowed),
      Check(d.tolerance.Some? ==> UsesTolerance(d.typ), GroupFieldNotAllowed) ]
  }

  ghost function GroupChecks(groups: seq<GroupDraft>, g: nat): seq<Check>
    requires g < |groups|
  {
    LocalChecks(groups[g]) + ([Check(FreshName(groups, g), GroupNameTaken)] + MemberChecks(groups[g].members, |groups|))
  }

  ghost function GroupChecksUpTo(groups: seq<GroupDraft>, n: nat): seq<Check>
    requires n <= |groups|
  {
    if n == 0 then [] else GroupChecksUpTo(groups, n - 1) + GroupChecks(groups, n - 1)
  }

  /** Group by group, check by check, member by member; the cycle check comes last. */
  ghost function ProxyGroupChecks(groups: seq<GroupDraft>): seq<Check> {
    GroupChecksUpTo(groups, |groups|) + [Check(!HasCycle(groups), GroupCycle)]
  }

  // ----- routing rules

  predicate Plain(t: string) { !IsLogical(t) && !IsMatch(t) && !TakesProvider(t) }

  /** The checks of a rule node that do not depend on where it stands. */
  ghost function TypeChecks(r: RuleDraft): seq<Check> {
    [ Check(KnownRule(r.typ), UnknownRuleType),
      Check(IsLogical(r.typ) || IsMatch(r.typ) ==> r.value.None? && r.providerIdx.None?, RulePayloadNotAllowed),
      Check(TakesProvider(r.typ) ==> r.value.None?, RulePayloadNotAllowed),
      Check(TakesProvider(r.typ) ==> r.providerIdx.Some?, ProviderRefRange),
      Check(Plain(r.typ) ==> r.providerIdx.None?, RulePayloadNotAllowed),
      Check(Plain(r.typ) ==> r.value.Some? && r.value.value != "", RuleValueRequired),
      Check(r.children != [] ==> IsLogical(r.typ), ChildrenNotAllowed),
      Check(r.noResolve == Some(true) ==> SupportsNoResolve(r.typ), NoResolveUnsupported) ]
  }

  /** A target stands at the root and only there. */
  ghost function TargetChecks(r: RuleDraft, top: bool, numGroups: nat): seq<Check> {
    [ Check(top ==> r.target.Some?, TargetRequired),
      Check(!top ==> r.target.None?, ChildTarget) ]
    + if top && r.target.Some? then RefChecks(r.target.value, numGroups) else []
  }

  ghost function PlaceChecks(r: RuleDraft, top: bool, numProviders: nat): seq<Check> {
    [ Check(!top ==> !IsMatch(r.typ), MatchChild),
      Check(!top ==> r.noResolve != Some(true), NoResolveUnsupported),
      Check(TakesProvider(r.typ) ==> r.providerIdx.Some? && 0 <= r.providerIdx.value < numProviders, ProviderRefRange),
      Check(r.typ == "NOT" ==> |r.children| == 1, NotArity),
      Check(r.typ == "AND" || r.typ == "OR" ==> |r.children| >= 2, LogicalArity) ]
  }

  /** The checks of one node of a rule tree; top says whether it is the root. */
  ghost function NodeChecks(r: RuleDraft, top: bool, numGroups: nat, numProviders: nat): seq<Check> {
    TypeChecks(r) + (TargetChecks(r, top, numGroups) + PlaceChecks(r, top, numProviders))
  }

  /** A node of a rule tree together with whether it is the root. */
  datatype Node = Node(rule: RuleDraft, top: bool)

  /** All nodes of a tree, every parent before its children. */
  ghost function Nodes(r: RuleDraft, top: bool): seq<Node>
    decreases r, 1
  {
    [Node(r, top)] + ForestNodes(r.children)
  }

  ghost function ForestNodes(rs: seq<RuleDraft>): seq<Node>
    decreases rs, 0
  {
    if rs == [] then [] else Nodes(rs[0], false) + ForestNodes(rs[1..])
  }

  ghost function ChecksOf(nodes: seq<Node>, numGroups: nat, numProviders: nat): seq<Check> {
    if nodes == [] then []
    else
      NodeChecks(nodes[0].rule, nodes[0].top, numGroups, numProviders)
      + ChecksOf(nodes[1..], numGroups, numProviders)
  }

  /** Rule by rule, node by node; after each tree, whether a MATCH stands before the end. */
  ghost function RoutingChecksUpTo(rules: seq<RuleDraft>, n: nat, numGroups: nat, numProviders: nat): seq<Check>
    requires n <= |rules|
  {
    if n == 0 then []
    else RoutingChecksUpTo(rules, n - 1, numGroups, numProviders)
         + ChecksOf(Nodes(rules[n - 1], true), numGroups, numProviders)
         + [Check(IsMatch(rules[n - 1].typ) ==> n == |rules|, MatchNotLast)]
  }

  ghost function RoutingChecks(rules: seq<RuleDraft>, numGroups: nat, numProviders: nat): seq<Check> {
    RoutingChecksUpTo(rules, |rules|, numGroups, numProviders)
  }

  lemma {:induction false} Assoc(a: seq<Check>, b: seq<Check>, c: seq<Check>)
    ensures a + b + c == a + (b + c)
  {
  }

  lemma {:induction false} ChecksOfConcat(a: seq<Node>, b: seq<Node>, numGroups: nat, numProviders: nat)
    ensures ChecksOf(a + b, numGroups, numProviders) ==
            ChecksOf(a, numGroups, numProviders) + ChecksOf(b, numGroups, numProviders)
  {
    hide NodeChecks;
    if a == [] {
      assert a + b == b;
    } else {
      ChecksOfConcat(a[1..], b, numGroups, numProviders);
      var head := NodeChecks(a[0].rule, a[0].top, numGroups, numProviders);
      assert (a + b)[1..] == a[1..] + b;
      Assoc(head, ChecksOf(a[1..], numGroups, numProviders), ChecksOf(b, numGroups, numProviders));
    }
  }

  lemma {:induction false} ChecksOfAllOk(nodes: seq<Node>, numGroups: nat, numProviders: nat)
    ensures AllOk(ChecksOf(nodes, numGroups, numProviders))
       <==> forall x :: x in nodes ==> AllOk(NodeChecks(x.rule, x.top, numGroups, numProviders))
  {
    hide NodeChecks;
    if nodes == [] {
    } else {
      ChecksOfAllOk(nodes[1..], numGroups, numProviders);
      AllOkConcat(NodeChecks(nodes[0].rule, nodes[0].top, numGroups, numProviders),
                  ChecksOf(nodes[1..], numGroups, numProviders));
      assert nodes == [nodes[0]] + nodes[1..];
    }
  }

  lemma {:induction false} AllOkConcat(a: seq<Check>, b: seq<Check>)
    ensures AllOk(a + b) <==> AllOk(a) && AllOk(b)
  {
    if AllOk(a + b) {
      forall k | 0 <= k < |a| ensures a[k].ok { assert (a + b)[k] == a[k]; }
      forall k | 0 <= k < |b| ensures b[k].ok { assert (a + b)[|a| + k] == b[k]; }
    }
  }
}
