/** Reading a stored config and showing it in the wire shape, with ids turned back into indices. */
module ConfigView {
  import opened Wrappers
  import opened Drafts
  import opened Decode
  import opened Tables
  import opened RuleRows
  import opened Store

  datatype ProxyGroup = ProxyGroup(
    id: int, position: nat, name: string, typ: string, url: string,
    interval: Option<int>, tolerance: Option<int>, lazy: Option<bool>, members: seq<PolicyRef>)

  // ----- query answers

  ghost predicate GroupAnswer(rows: seq<GroupRow>, table: seq<GroupRow>, config: int) {
    && (forall x :: x in rows ==> x in table && x.config == config)
    && (forall x :: x in table && x.config == config ==> x in rows)
    && (forall i, j :: 0 <= i < j < |rows| ==> rows[i].id != rows[j].id && rows[i].position <= rows[j].position)
  }

  /** The members of all configs, ordered by group and position. */
  ghost predicate MemberAnswer(rows: seq<MemberRow>, table: seq<MemberRow>) {
    && (forall x :: x in rows ==> x in table)
    && (forall x :: x in table ==> x in rows)
    && (forall i, j :: 0 <= i < j < |rows| ==>
          rows[i].id != rows[j].id
          && (|| rows[i].group < rows[j].group
              || (rows[i].group == rows[j].group && rows[i].position <= rows[j].position)))
  }

  /** The order of the names' code points, which is the byte order of their UTF-8 encodings. */
  predicate NameLess(a: string, b: string) {
    b != "" && (a == "" || a[0] < b[0] || (a[0] == b[0] && NameLess(a[1..], b[1..])))
  }

  ghost predicate ProviderAnswer(rows: seq<ProviderRow>, table: seq<ProviderRow>, config: int) {
    && (forall x :: x in rows ==> x in table && x.config == config)
    && (forall x :: x in table && x.config == config ==> x in rows)
    && (forall i, j :: 0 <= i < j < |rows| ==>
          rows[i].id != rows[j].id && !NameLess(rows[j].provider.name, rows[i].provider.name))
  }

  // ----- proxy-groups with their members

  function MemberRef(row: MemberRow): PolicyRef { PolicyRef(row.kind, row.inbound, row.refGroup) }

  function InGroup(id: int): MemberRow -> bool { (m: MemberRow) => m.group == id }

  ghost function Refs(rows: seq<MemberRow>): (refs: seq<PolicyRef>)
    ensures |refs| == |rows|
  {
    seq(|rows|, k requires 0 <= k < |rows| => MemberRef(rows[k]))
  }

  ghost function GroupOf(row: GroupRow, members: seq<MemberRow>): ProxyGroup {
    ProxyGroup(row.id, row.position, row.name, row.typ, row.url, row.interval, row.tolerance, row.lazy,
               Refs(Filter(members, InGroup(row.id))))
  }

  /** Attaches every member to its group; members of groups that were not asked for are skipped. */
  method ReadGroups(groupRows: seq<GroupRow>, memberRows: seq<MemberRow>) returns (groups: seq<ProxyGroup>)
    requires forall i, j :: 0 <= i < j < |groupRows| ==> groupRows[i].id != groupRows[j].id
    ensures |groups| == |groupRows|
    ensures forall i :: 0 <= i < |groups| ==> groups[i] == GroupOf(groupRows[i], memberRows)
  {
    groups := [];
    var byID: map<int, nat> := map[];
    for i := 0 to |groupRows|
      invariant |groups| == i && forall k :: 0 <= k < i ==> groups[k] == GroupOf(groupRows[k], [])
      invariant forall id :: id in byID ==> byID[id] < i && groupRows[byID[id]].id == id
      invariant forall k :: 0 <= k < i ==> groupRows[k].id in byID
    {
      var g := groupRows[i];
      byID := byID[g.id := i];
      groups := groups + [ProxyGroup(g.id, g.position, g.name, g.typ, g.url, g.interval, g.tolerance, g.lazy, [])];
    }
    for n := 0 to |memberRows|
      invariant |groups| == |groupRows|
      invariant forall k :: 0 <= k < |groups| ==> groups[k] == GroupOf(groupRows[k], memberRows[..n])
    {
      var m := memberRows[n];
      forall k | 0 <= k < |groups| {
        MembersAppend(memberRows, n, groupRows[k].id);
      }
      if m.group in byID {
        var at := byID[m.group];
        groups := groups[at := groups[at].(members := groups[at].members + [MemberRef(m)])];
      }
    }
    assert memberRows[..|memberRows|] == memberRows;
  }

  lemma {:induction false} MembersAppend(rows: seq<MemberRow>, n: nat, id: int)
    requires n < |rows|
    ensures Refs(Filter(rows[..n + 1], InGroup(id))) ==
            Refs(Filter(rows[..n], InGroup(id))) + if rows[n].group == id then [MemberRef(rows[n])] else []
  {
    var last := [rows[n]];
    assert last[1..] == [];
    FilterConcat(rows[..n], last, InGroup(id));
    assert rows[..n + 1] == rows[..n] + last;
  }

  // ----- showing

  /** Where an id stands in a list; a later position wins. */
  ghost function IndexMap(ids: seq<int>): map<int, int> {
    if ids == [] then map[] else IndexMap(ids[..|ids| - 1])[ids[|ids| - 1] := |ids| - 1]
  }

  function RefToView(m: PolicyRef, idx: map<int, int>): RefDTO {
    RefDTO(m.kind,
           if m.kind == POLICY_INBOUND then m.inboundID else None,
           if m.kind == POLICY_GROUP && m.groupID.Some? && m.groupID.value in idx
           then Some(idx[m.groupID.value]) else None)
  }

  function RuleToView(r: RoutingRule, idx: map<int, int>, provIdx: map<int, int>): RuleDTO
    decreases r, 1
  {
    RuleDTO(r.typ, r.value,
            if r.providerID.Some? && r.providerID.value in provIdx then Some(provIdx[r.providerID.value]) else None,
            r.noResolve,
            if r.target.Some? then Some(RefToView(r.target.value, idx)) else None,
            RulesToView(r.children, idx, provIdx))
  }

  function RulesToView(rs: seq<RoutingRule>, idx: map<int, int>, provIdx: map<int, int>): (out: seq<RuleDTO>)
    ensures |out| == |rs| && forall k :: 0 <= k < |rs| ==> out[k] == RuleToView(rs[k], idx, provIdx)
    decreases rs, 0
  {
    if rs == [] then [] else [RuleToView(rs[0], idx, provIdx)] + RulesToView(rs[1..], idx, provIdx)
  }

  /** An id that is not in the map has no index; every other field is shown as it is. */
  lemma {:induction false} ViewMeans(m: PolicyRef, r: RoutingRule, idx: map<int, int>, provIdx: map<int, int>)
    ensures var v := RefToView(m, idx);
            && v.kind == m.kind
            && v.inboundID == (if m.kind == "inbound" then m.inboundID else None)
            && (v.groupIdx.Some? <==> m.kind == "group" && m.groupID.Some? && m.groupID.value in idx)
            && (v.groupIdx.Some? ==> v.groupIdx.value == idx[m.groupID.value])
    ensures var v := RuleToView(r, idx, provIdx);
            && v.typ == r.typ && v.value == r.value && v.noResolve == r.noResolve
            && (v.providerIdx.Some? <==> r.providerID.Some? && r.providerID.value in provIdx)
            && (v.providerIdx.Some? ==> v.providerIdx.value == provIdx[r.providerID.value])
            && (r.target.None? ==> v.target == None)
            && (r.target.Some? ==> v.target == Some(RefToView(r.target.value, idx)))
            && |v.children| == |r.children|
            && forall k :: 0 <= k < |r.children| ==> v.children[k] == RuleToView(r.children[k], idx, provIdx)
  {
  }

  /** A group is read with its row's fields and the references of the rows that name it, in their order. */
  lemma {:induction false} GroupOfMeans(row: GroupRow, members: seq<MemberRow>)
    ensures var g := GroupOf(row, members);
            && g.id == row.id && g.position == row.position && g.name == row.name && g.typ == row.typ
            && g.url == row.url && g.interval == row.interval && g.tolerance == row.tolerance && g.lazy == row.lazy
            && var own := Filter(members, (m: MemberRow) => m.group == row.id);
               && |g.members| == |own|
               && forall k :: 0 <= k < |own| ==>
                    g.members[k] == PolicyRef(own[k].kind, own[k].inbound, own[k].refGroup)
  {
    SameTest(members, InGroup(row.id), (m: MemberRow) => m.group == row.id);
  }

  lemma {:induction false} SameTest<T(!new)>(s: seq<T>, keep: T -> bool, test: T -> bool)
    requires forall x :: keep(x) == test(x)
    ensures Filter(s, keep) == Filter(s, test)
  {
    if s == [] {
    } else {
      SameTest(s[1..], keep, test);
    }
  }

  ghost function GroupToView(g: ProxyGroup, idx: map<int, int>): GroupDTO {
    GroupDTO(g.name, g.typ, g.url, g.interval, g.tolerance, g.lazy,
             seq(|g.members|, k requires 0 <= k < |g.members| => RefToView(g.members[k], idx)))
  }

  function GroupIDs(groups: seq<ProxyGroup>): (ids: seq<int>)
    ensures |ids| == |groups|
  {
    seq(|groups|, i requires 0 <= i < |groups| => groups[i].id)
  }

  function ProviderIDs(rows: seq<ProviderRow>): (ids: seq<int>)
    ensures |ids| == |rows|
  {
    seq(|rows|, i requires 0 <= i < |rows| => rows[i].id)
  }

  ghost function Shown(groups: seq<ProxyGroup>, rules: seq<RoutingRule>, providers: seq<ProviderRow>, baseYAML: string,
                       profile: Profile): ConfigDTO
  {
    var idx, provIdx := IndexMap(GroupIDs(groups)), IndexMap(ProviderIDs(providers));
    ConfigDTO(
      seq(|groups|, i requires 0 <= i < |groups| => GroupToView(groups[i], idx)),
      RulesToView(rules, idx, provIdx),
      seq(|providers|, i requires 0 <= i < |providers| => providers[i].provider),
      baseYAML, profile.title, profile.filename, profile.updateInterval)
  }

  /** The handler after its reads: index the ids, then convert groups, rules and providers. */
  method ConfigGet(groups: seq<ProxyGroup>, rules: seq<RoutingRule>, providers: seq<ProviderRow>, baseYAML: string,
                   profile: Profile)
    returns (out: ConfigDTO)
    ensures out == Shown(groups, rules, providers, baseYAML, profile)
  {
    hide IndexMap, RuleToView, RulesToView;
    var idx := Index(GroupIDs(groups));
    var provIdx := Index(ProviderIDs(providers));
    var groupViews: seq<GroupDTO> := [];
    for i := 0 to |groups|
      invariant |groupViews| == i && forall k :: 0 <= k < i ==> groupViews[k] == GroupToView(groups[k], idx)
    {
      var members := ShowMembers(groups[i].members, idx);
      groupViews := groupViews + [GroupDTO(groups[i].name, groups[i].typ, groups[i].url, groups[i].interval,
                                           groups[i].tolerance, groups[i].lazy, members)];
    }
    var ruleViews: seq<RuleDTO> := [];
    for i := 0 to |rules|
      invariant ruleViews == RulesToView(rules, idx, provIdx)[..i]
    {
      ruleViews := ruleViews + [RuleToView(rules[i], idx, provIdx)];
    }
    var providerViews: seq<Provider> := [];
    for i := 0 to |providers|
      invariant |providerViews| == i && forall k :: 0 <= k < i ==> providerViews[k] == providers[k].provider
    {
      providerViews := providerViews + [providers[i].provider];
    }
    out := ConfigDTO(groupViews, ruleViews, providerViews, baseYAML, profile.title, profile.filename,
                     profile.updateInterval);
  }

  /** The loops that number a list by id. */
  method Index(ids: seq<int>) returns (idx: map<int, int>)
    ensures idx == IndexMap(ids)
  {
    idx := map[];
    for i := 0 to |ids|
      invariant idx == IndexMap(ids[..i])
    {
      idx := idx[ids[i] := i];
      assert ids[..i + 1][..i] == ids[..i];
    }
    assert ids[..|ids|] == ids;
  }

  method ShowMembers(members: seq<PolicyRef>, idx: map<int, int>) returns (out: seq<RefDTO>)
    ensures |out| == |members| && forall k :: 0 <= k < |members| ==> out[k] == RefToView(members[k], idx)
  {
    out := [];
    for k := 0 to |members|
      invariant |out| == k && forall j :: 0 <= j < k ==> out[j] == RefToView(members[j], idx)
    {
      out := out + [RefToView(members[k], idx)];
    }
  }

  /** Distinct ids lead back to their positions. */
  lemma {:induction false} IndexMapFinds(ids: seq<int>, i: nat)
    requires i < |ids| && forall a, b :: 0 <= a < b < |ids| ==> ids[a] != ids[b]
    ensures ids[i] in IndexMap(ids) && IndexMap(ids)[ids[i]] == i
  {
    if i == |ids| - 1 {
    } else {
      IndexMapFinds(ids[..|ids| - 1], i);
    }
  }
}
