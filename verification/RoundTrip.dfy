/**
 Saving an accepted config, reading it back and showing it: what comes out, and when it is what
 went in. Three things may differ: providers come back in name order, RULE-SET indices follow
 them there, and an explicit false no-resolve comes back as absent.
 */
module RoundTrip {
  import opened Wrappers
  import opened RuleTypes
  import opened Drafts
  import opened GroupGraph
  import opened Checks
  import opened Acceptance
  import opened Validate
  import opened Decode
  import opened Tables
  import opened RuleRows
  import opened Store
  import opened ConfigView
  import opened Answers
  import opened Reorder

  // ----- the canonical form

  ghost function CanonRule(r: RuleDraft, back: seq<nat>): RuleDraft
    decreases r, 1
  {
    r.(providerIdx := if r.providerIdx.Some? && 0 <= r.providerIdx.value < |back|
                      then Some(back[r.providerIdx.value]) else r.providerIdx,
       noResolve := if r.noResolve == Some(true) then r.noResolve else None,
       children := CanonRules(r.children, back))
  }

  ghost function CanonRules(rs: seq<RuleDraft>, back: seq<nat>): (out: seq<RuleDraft>)
    ensures |out| == |rs| && forall i :: 0 <= i < |rs| ==> out[i] == CanonRule(rs[i], back)
    decreases rs, 0
  {
    if rs == [] then [] else [CanonRule(rs[0], back)] + CanonRules(rs[1..], back)
  }

  // ----- accepted forests

  /** Every node of every tree is well formed; top says whether the trees' roots are top-level rules. */
  ghost predicate GoodForest(rs: seq<RuleDraft>, top: bool, numGroups: nat, numProviders: nat) {
    forall k, x :: 0 <= k < |rs| && x in Nodes(rs[k], top) ==> GoodNode(x.rule, x.top, numGroups, numProviders)
  }

  lemma {:induction false} ForestHasTree(rs: seq<RuleDraft>, k: nat, x: Node)
    requires k < |rs| && x in Nodes(rs[k], false)
    ensures x in ForestNodes(rs)
  {
    hide Nodes;
    if k == 0 {
    } else {
      ForestHasTree(rs[1..], k - 1, x);
    }
  }

  lemma {:induction false} GoodForestStep(rs: seq<RuleDraft>, top: bool, numGroups: nat, numProviders: nat)
    requires rs != [] && GoodForest(rs, top, numGroups, numProviders)
    ensures GoodNode(rs[0], top, numGroups, numProviders)
    ensures GoodForest(rs[0].children, false, numGroups, numProviders)
    ensures GoodForest(rs[1..], top, numGroups, numProviders)
    ensures Below(rs[0]) == rs[0].children
  {
    hide GoodNode;
    assert Node(rs[0], top) in Nodes(rs[0], top);
    forall k, x | 0 <= k < |rs[0].children| && x in Nodes(rs[0].children[k], false)
      ensures GoodNode(x.rule, x.top, numGroups, numProviders)
    {
      ForestHasTree(rs[0].children, k, x);
      assert x in Nodes(rs[0], top);
    }
    GoodNodeBelow(rs[0], top, numGroups, numProviders);
  }

  lemma {:induction false} GoodNodeBelow(r: RuleDraft, top: bool, numGroups: nat, numProviders: nat)
    requires GoodNode(r, top, numGroups, numProviders)
    ensures Below(r) == r.children
  {
    SpecialTypes(r.typ);
  }

  lemma {:induction false} GoodForestResolves(rs: seq<RuleDraft>, top: bool, env: Env)
    requires GoodForest(rs, top, |env.groupID|, |env.providerID|)
    ensures Resolves(rs, env)
    decreases Weight(rs)
  {
    if rs == [] {
    } else {
      GoodForestStep(rs, top, |env.groupID|, |env.providerID|);
      GoodForestResolves(rs[0].children, false, env);
      GoodForestResolves(rs[1..], top, env);
    }
  }

  // ----- rules

  /** The index maps lead every id of the save back: groups to their draft index, providers to back. */
  ghost predicate LeadsBack(env: Env, idx: map<int, int>, provIdx: map<int, int>, back: seq<nat>) {
    && |back| == |env.providerID|
    && (forall i :: 0 <= i < |env.groupID| ==> env.groupID[i] in idx && idx[env.groupID[i]] == i)
    && (forall i :: 0 <= i < |env.providerID| ==> env.providerID[i] in provIdx && provIdx[env.providerID[i]] == back[i])
  }

  lemma {:induction false} RefShows(m: RefDraft, numGroups: nat, env: Env, idx: map<int, int>, provIdx: map<int, int>,
                                    back: seq<nat>)
    requires GoodRef(m, |env.groupID|) && LeadsBack(env, idx, provIdx, back)
    ensures RefResolves(m, env.groupID)
    ensures RefToView(PolicyRef(m.kind, InboundColumn(m), GroupColumn(m, env.groupID)), idx) == EmbedRef(m)
  {
  }

  /** One node: the columns of its row, shown again, are its own fields in canonical form. */
  lemma {:induction false} NodeShows(r: RuleDraft, top: bool, id: int, position: nat, env: Env, idx: map<int, int>,
                                     provIdx: map<int, int>, back: seq<nat>, below: seq<RoutingRule>)
    requires GoodNode(r, top, |env.groupID|, |env.providerID|) && LeadsBack(env, idx, provIdx, back)
    requires NodeResolves(r, env) && RulesToView(below, idx, provIdx) == EmbedRules(CanonRules(r.children, back))
    ensures RuleToView(RuleOf(RowOf(r, id, None, position, env)).(children := below), idx, provIdx) ==
            EmbedRule(CanonRule(r, back))
  {
    if r.target.Some? {
      RefShows(r.target.value, |env.groupID|, env, idx, provIdx, back);
    }
  }

  lemma {:induction false} RulesShow(rs: seq<RuleDraft>, top: bool, position: nat, next: int, env: Env,
                                     idx: map<int, int>, provIdx: map<int, int>, back: seq<nat>)
    requires GoodForest(rs, top, |env.groupID|, |env.providerID|) && LeadsBack(env, idx, provIdx, back)
    requires Resolves(rs, env)
    ensures RulesToView(Stored(rs, position, next, env), idx, provIdx) == EmbedRules(CanonRules(rs, back))
    decreases Weight(rs)
  {
    hide RowOf, RuleOf, NodeResolves, GoodNode, GoodForest, LeadsBack, RuleToView, EmbedRule, CanonRule;
    if rs == [] {
    } else {
      GoodForestStep(rs, top, |env.groupID|, |env.providerID|);
      var r, id := rs[0], next + 1;
      RulesShow(r.children, false, 0, id, env, idx, provIdx, back);
      RulesShow(rs[1..], top, position + 1, id + Size(r.children), env, idx, provIdx, back);
      NodeShows(r, top, id, position, env, idx, provIdx, back, Stored(r.children, 0, id, env));
      var stored := Stored(rs, position, next, env);
      assert stored[1..] == Stored(rs[1..], position + 1, id + Size(r.children), env);
      assert CanonRules(rs, back)[1..] == CanonRules(rs[1..], back);
    }
  }

  /** The rows of accepted rules satisfy the table's constraints at every depth. */
  lemma {:induction false} AcceptedRowsPassChecks(rs: seq<RuleDraft>, top: bool, position: nat, parent: Option<int>,
                                                  next: int, env: Env)
    requires GoodForest(rs, top, |env.groupID|, |env.providerID|) && (parent.None? <==> top) && Resolves(rs, env)
    ensures forall x :: x in Flatten(rs, position, parent, next, env) ==> PassesChecks(x)
    decreases Weight(rs)
  {
    hide GoodForest, GoodNode, PassesChecks, RowOf, NodeResolves, Flatten, Resolves, Size;
    if rs == [] {
      EmptyForest(position, parent, next, env);
    } else {
      GoodForestStep(rs, top, |env.groupID|, |env.providerID|);
      FlattenParts(rs, position, parent, next, env);
      RowPassesChecks(rs[0], top, next + 1, parent, position, env);
      AcceptedRowsPassChecks(Below(rs[0]), false, 0, Some(next + 1), next + 1, env);
      AcceptedRowsPassChecks(rs[1..], top, position + 1, parent, next + 1 + Size(Below(rs[0])), env);
    }
  }

  lemma {:induction false} RowPassesChecks(r: RuleDraft, top: bool, id: int, parent: Option<int>, position: nat,
                                           env: Env)
    requires GoodNode(r, top, |env.groupID|, |env.providerID|) && (parent.None? <==> top) && NodeResolves(r, env)
    ensures PassesChecks(RowOf(r, id, parent, position, env))
  {
  }

  // ----- inbounds

  /** An inbound reference leads to an inbound of some node. */
  predicate KnownInbound(m: RefDraft, inbounds: set<int>) {
    m.kind == POLICY_INBOUND && m.inboundID.Some? ==> m.inboundID.value in inbounds
  }

  predicate KnownTarget(r: RuleDraft, inbounds: set<int>) {
    r.target.Some? ==> KnownInbound(r.target.value, inbounds)
  }

  predicate InboundsExist(d: ConfigDraft, inbounds: set<int>) {
    && (forall g, m :: g in d.groups && m in g.members ==> KnownInbound(m, inbounds))
    && forall r :: r in d.rules ==> KnownTarget(r, inbounds)
  }

  lemma {:induction false} MembersFitIff(groups: seq<GroupDraft>, n: nat, groupID: seq<int>, last: nat,
                                         inbounds: set<int>)
    requires n <= |groups| <= |groupID| && MembersResolve(groups, groupID)
    ensures (forall x :: x in MemberRows(groups, n, groupID, last) ==> MemberFits(x, inbounds))
       <==> forall g, m :: g in groups[..n] && m in g.members ==> KnownInbound(m, inbounds)
  {
    hide MemberFits, KnownInbound, MembersOf;
    if n == 0 {
    } else {
      var before := MemberRows(groups, n - 1, groupID, last);
      MembersFitIff(groups, n - 1, groupID, last, inbounds);
      OneGroupFits(groups[n - 1].members, groupID[n - 1], groupID, last + |before|, inbounds);
      assert groups[..n] == groups[..n - 1] + [groups[n - 1]];
    }
  }

  lemma {:induction false} OneGroupFits(members: seq<RefDraft>, group: int, groupID: seq<int>, last: nat,
                                        inbounds: set<int>)
    requires forall j :: 0 <= j < |members| ==> RefResolves(members[j], groupID)
    ensures (forall x :: x in MembersOf(members, group, groupID, last) ==> MemberFits(x, inbounds))
       <==> forall m :: m in members ==> KnownInbound(m, inbounds)
  {
    hide MemberFits, KnownInbound, RefResolves;
    var rows := MembersOf(members, group, groupID, last);
    forall j | 0 <= j < |members| ensures MemberFits(rows[j], inbounds) <==> KnownInbound(members[j], inbounds) {
      MemberFitsIff(members[j], last + 1 + j, group, j, groupID, inbounds);
    }
    assert forall j :: 0 <= j < |members| ==> rows[j] in rows && members[j] in members;
  }

  lemma {:induction false} MemberFitsIff(m: RefDraft, id: int, group: int, position: nat, groupID: seq<int>,
                                         inbounds: set<int>)
    requires RefResolves(m, groupID)
    ensures MemberFits(MemberRowOf(m, id, group, position, groupID), inbounds) <==> KnownInbound(m, inbounds)
  {
  }

  /** Only targets name inbounds, and only top-level rules have targets. */
  lemma {:induction false} RulesFitIff(rs: seq<RuleDraft>, top: bool, position: nat, parent: Option<int>, next: int,
                                       env: Env, inbounds: set<int>)
    requires GoodForest(rs, top, |env.groupID|, |env.providerID|) && (parent.None? <==> top) && Resolves(rs, env)
    ensures (forall x :: x in Flatten(rs, position, parent, next, env) ==> RuleFits(x, inbounds))
       <==> forall r :: r in rs ==> KnownTarget(r, inbounds)
    decreases Weight(rs)
  {
    hide GoodForest, GoodNode, Resolves, Flatten, NodeResolves, RowOf, RuleFits, KnownTarget;
    if rs == [] {
      EmptyForest(position, parent, next, env);
    } else {
      GoodForestStep(rs, top, |env.groupID|, |env.providerID|);
      FlattenParts(rs, position, parent, next, env);
      RowFitsIff(rs[0], top, next + 1, parent, position, env, inbounds);
      RulesFitIff(Below(rs[0]), false, 0, Some(next + 1), next + 1, env, inbounds);
      ChildrenHaveNoTarget(rs[0].children, |env.groupID|, |env.providerID|, inbounds);
      RulesFitIff(rs[1..], top, position + 1, parent, next + 1 + Size(Below(rs[0])), env, inbounds);
      assert rs == [rs[0]] + rs[1..];
    }
  }

  lemma {:induction false} RowFitsIff(r: RuleDraft, top: bool, id: int, parent: Option<int>, position: nat, env: Env,
                                      inbounds: set<int>)
    requires GoodNode(r, top, |env.groupID|, |env.providerID|) && (parent.None? <==> top) && NodeResolves(r, env)
    ensures RuleFits(RowOf(r, id, parent, position, env), inbounds) <==> KnownTarget(r, inbounds)
  {
    RowPassesChecks(r, top, id, parent, position, env);
  }

  lemma {:induction false} ChildrenHaveNoTarget(rs: seq<RuleDraft>, numGroups: nat, numProviders: nat,
                                                inbounds: set<int>)
    requires GoodForest(rs, false, numGroups, numProviders)
    ensures forall r :: r in rs ==> KnownTarget(r, inbounds)
  {
    forall k | 0 <= k < |rs| ensures KnownTarget(rs[k], inbounds) {
      assert Node(rs[k], false) in Nodes(rs[k], false);
      assert GoodNode(rs[k], false, numGroups, numProviders);
    }
  }

  // ----- the whole config

  /** Answers that the database may give to the reads of one config after the save. */
  datatype Answer = Answer(groups: seq<GroupRow>, members: seq<MemberRow>, providers: seq<ProviderRow>,
                           rules: seq<RuleRow>)

  ghost predicate Possible(a: Answer, db: DB, config: int) {
    && GroupAnswer(a.groups, db.groups, config)
    && MemberAnswer(a.members, db.members)
    && ProviderAnswer(a.providers, db.providers, config)
    && RuleAnswer(a.rules, db.rules, config)
  }

  /** The config shown from the answers: what ReadGroups, ReadRules and ConfigGet compute from them. */
  ghost function ShownFrom(a: Answer, baseYAML: string, profile: Profile): ConfigDTO
    requires Readable(a.rules)
  {
    Shown(seq(|a.groups|, i requires 0 <= i < |a.groups| => GroupOf(a.groups[i], a.members)),
          Linked(a.rules), a.providers, baseYAML, profile)
  }

  /** The reads and the handler, one after the other. */
  method ReadConfig(a: Answer, baseYAML: string, profile: Profile) returns (out: ConfigDTO)
    requires Readable(a.rules) && forall i, j :: 0 <= i < j < |a.groups| ==> a.groups[i].id != a.groups[j].id
    ensures out == ShownFrom(a, baseYAML, profile)
  {
    hide Readable, Linked, GroupOf, Shown;
    var groups := ReadGroups(a.groups, a.members);
    var rules := ReadRules(a.rules);
    out := ConfigGet(groups, rules, a.providers, baseYAML, profile);
    assert groups == seq(|a.groups|, i requires 0 <= i < |a.groups| => GroupOf(a.groups[i], a.members));
  }

  datatype Got = NotFound | Found(config: ConfigDTO)

  /**
   The whole handler, for the base config or a user's custom one: a user without one is not
   found, a base never saved is empty, and every other config is shown from the answers to its
   reads, with a missing setting empty and a missing profile zero.
   */
  method GetConfig(user: Option<int>, base: Option<int>, custom: map<int, int>, db: DB, query: int -> Answer)
    returns (r: Got)
    requires forall config :: Possible(query(config), db, config)
    ensures user.Some? && user.value !in custom ==> r == NotFound
    ensures user.None? && base.None? ==> r == Found(ConfigDTO([], [], [], "", "", "", 0))
    ensures forall config :: (if user.Some? then user.value in custom && config == custom[user.value]
                              else base == Some(config)) ==>
              && Readable(query(config).rules)
              && r == Found(ShownFrom(query(config), if config in db.baseYAML then db.baseYAML[config] else "",
                                      if config in db.profiles then db.profiles[config] else Profile("", "", 0)))
  {
    hide ShownFrom, MemberAnswer, ProviderAnswer;
    if user.Some? && user.value !in custom {
      return NotFound;
    }
    if user.None? && base.None? {
      return Found(ConfigDTO([], [], [], "", "", "", 0));
    }
    var config := if user.Some? then custom[user.value] else base.value;
    assert Possible(query(config), db, config);
    var baseYAML := if config in db.baseYAML then db.baseYAML[config] else "";
    var profile := if config in db.profiles then db.profiles[config] else Profile("", "", 0);
    var shown := ReadConfig(query(config), baseYAML, profile);
    r := Found(shown);
  }

  ghost predicate Accepted(d: ConfigDraft) {
    GroupsAccepted(d.groups) && RulesAccepted(d.rules, |d.groups|, |d.providers|)
  }

  /** The store refuses an accepted draft for a repeated provider name or a missing inbound, and for nothing else. */
  lemma {:induction false} AcceptedIsSavable(db: DB, config: int, d: ConfigDraft)
    requires Accepted(d)
    ensures GoodForest(d.rules, true, |d.groups|, |d.providers|)
    ensures Savable(db, config, d) <==> DistinctProviderNames(d.providers) && InboundsExist(d, db.inbounds)
  {
    hide GoodNode, Resolves, Flatten, MemberRows, MemberFits, RuleFits, KnownTarget, KnownInbound;
    AcceptedIffGoodGroups(d.groups);
    AcceptedIffGoodRules(d.rules, |d.groups|, |d.providers|);
    forall k, x | 0 <= k < |d.rules| && x in Nodes(d.rules[k], true)
      ensures GoodNode(x.rule, x.top, |d.groups|, |d.providers|)
    {
      assert GoodTree(d.rules[k], |d.groups|, |d.providers|);
    }
    GoodForestResolves(d.rules, true, EnvOf(db, config, d));
    forall i, j | 0 <= i < |d.groups| && 0 <= j < |d.groups[i].members|
      ensures RefResolves(d.groups[i].members[j], EnvOf(db, config, d).groupID)
    {
      assert GoodGroup(d.groups[i], |d.groups|);
      assert d.groups[i].members[j] in d.groups[i].members;
    }
    var env := EnvOf(db, config, d);
    assert d.groups[..|d.groups|] == d.groups;
    MembersFitIff(d.groups, |d.groups|, env.groupID, db.memberSeq, db.inbounds);
    RulesFitIff(d.rules, true, 0, None, RuleBase(db, config), env, db.inbounds);
  }

  /** One stored group, read back and shown, is the draft's group. */
  lemma {:induction false} GroupShows(d: ConfigDraft, i: nat, row: GroupRow, rows: seq<MemberRow>, env: Env, from: nat,
                                      idx: map<int, int>, provIdx: map<int, int>, back: seq<nat>)
    requires i < |d.groups| == |env.groupID| && GoodGroup(d.groups[i], |d.groups|) && LeadsBack(env, idx, provIdx, back)
    requires row == GroupRowOf(d.groups[i], env.groupID[i], env.config, i)
    requires forall j :: 0 <= j < |d.groups[i].members| ==> RefResolves(d.groups[i].members[j], env.groupID)
    requires Filter(rows, InGroup(env.groupID[i])) == MembersOf(d.groups[i].members, env.groupID[i], env.groupID, from)
    ensures GroupToView(GroupOf(row, rows), idx) == EmbedGroup(d.groups[i])
  {
    hide Filter;
    var members := d.groups[i].members;
    forall j | 0 <= j < |members|
      ensures RefToView(MemberRef(MembersOf(members, env.groupID[i], env.groupID, from)[j]), idx) ==
              EmbedRef(members[j])
    {
      assert members[j] in members;
      RefShows(members[j], |d.groups|, env, idx, provIdx, back);
    }
    assert GroupToView(GroupOf(row, rows), idx).members == EmbedGroup(d.groups[i]).members;
  }

  /** The draft with its providers in answer order and its rules in canonical form. */
  ghost function Canonical(d: ConfigDraft, back: seq<nat>, forth: seq<nat>): (c: ConfigDraft)
    requires Inverse(back, forth) && |back| == |d.providers|
    ensures |c.providers| == |d.providers|
  {
    d.(rules := CanonRules(d.rules, back),
       providers := seq(|d.providers|, k requires 0 <= k < |d.providers| => d.providers[forth[k]]))
  }

  /** c says what r says at every depth, with the provider index taken along and a false no-resolve dropped. */
  ghost predicate SaysTheSame(r: RuleDraft, c: RuleDraft, back: seq<nat>)
    decreases r
  {
    && c.typ == r.typ && c.value == r.value && c.target == r.target
    && c.noResolve == (if r.noResolve == Some(true) then Some(true) else None)
    && (r.providerIdx.None? ==> c.providerIdx.None?)
    && (r.providerIdx.Some? && 0 <= r.providerIdx.value < |back| ==> c.providerIdx == Some(back[r.providerIdx.value]))
    && |c.children| == |r.children|
    && forall k :: 0 <= k < |r.children| ==> SaysTheSame(r.children[k], c.children[k], back)
  }

  lemma {:induction false} CanonSaysTheSame(r: RuleDraft, back: seq<nat>)
    ensures SaysTheSame(r, CanonRule(r, back), back)
    decreases r
  {
    forall k | 0 <= k < |r.children| ensures SaysTheSame(r.children[k], CanonRule(r.children[k], back), back) {
      CanonSaysTheSame(r.children[k], back);
    }
  }

  /** What the canonical form keeps: everything but the order of the providers and a false no-resolve. */
  lemma {:induction false} CanonicalMeans(d: ConfigDraft, back: seq<nat>, forth: seq<nat>)
    requires Inverse(back, forth) && |back| == |d.providers|
    ensures var c := Canonical(d, back, forth);
            && c.groups == d.groups && c.baseYAML == d.baseYAML && c.profile == d.profile
            && |c.rules| == |d.rules| && (forall k :: 0 <= k < |d.rules| ==> SaysTheSame(d.rules[k], c.rules[k], back))
            && |c.providers| == |d.providers|
            && forall i :: 0 <= i < |d.providers| ==> c.providers[back[i]] == d.providers[i]
  {
    hide CanonRule, SaysTheSame;
    forall k | 0 <= k < |d.rules| ensures SaysTheSame(d.rules[k], CanonRules(d.rules, back)[k], back) {
      CanonSaysTheSame(d.rules[k], back);
    }
  }

  lemma {:induction false} GroupIDsLeadBack(ids: seq<int>)
    requires forall a, b :: 0 <= a < b < |ids| ==> ids[a] != ids[b]
    ensures forall i :: 0 <= i < |ids| ==> ids[i] in IndexMap(ids) && IndexMap(ids)[ids[i]] == i
  {
    forall i | 0 <= i < |ids| ensures ids[i] in IndexMap(ids) && IndexMap(ids)[ids[i]] == i {
      IndexMapFinds(ids, i);
    }
  }

  lemma {:induction false} IDsLeadBack(a: Answer, db: DB, config: int, d: ConfigDraft, env: Env, back: seq<nat>,
                                       forth: seq<nat>)
    requires env == EnvOf(db, config, d) && a.groups == GroupRows(d.groups, config, db.groupSeq)
    requires Inverse(back, forth) && |back| == |d.providers| == |a.providers|
    requires forall i :: 0 <= i < |back| ==>
               a.providers[back[i]] == ProviderRow(env.providerID[i], config, d.providers[i])
    requires forall i, j :: 0 <= i < j < |a.providers| ==> a.providers[i].id != a.providers[j].id
    ensures LeadsBack(env, IndexMap(env.groupID), IndexMap(ProviderIDs(a.providers)), back)
  {
    hide IndexMap;
    GroupIDsLeadBack(env.groupID);
    GroupIDsLeadBack(ProviderIDs(a.providers));
    forall i | 0 <= i < |back| ensures ProviderIDs(a.providers)[back[i]] == env.providerID[i] {
    }
  }

  lemma {:induction false} GroupsShow(db: DB, config: int, d: ConfigDraft, a: Answer,
                                      idx: map<int, int>, provIdx: map<int, int>, back: seq<nat>)
    requires ValidDB(db) && GoodGroups(d.groups) && Savable(db, config, d)
    requires a.groups == GroupRows(d.groups, config, db.groupSeq)
    requires MemberAnswer(a.members, Saved(db, config, d).members)
    requires LeadsBack(EnvOf(db, config, d), idx, provIdx, back)
    ensures forall i :: 0 <= i < |d.groups| ==>
              GroupToView(GroupOf(a.groups[i], a.members), idx) == EmbedGroup(d.groups[i])
  {
    hide Resolves, Flatten, MemberRows, Saved, GroupOf, GroupToView, EmbedGroup, LeadsBack, MemberAnswer, GoodGroup,
         Filter, RefResolves, MembersOf;
    var env := EnvOf(db, config, d);
    forall i | 0 <= i < |d.groups|
      ensures GroupToView(GroupOf(a.groups[i], a.members), idx) == EmbedGroup(d.groups[i])
    {
      var from := MembersReadBack(a.members, db, config, d, i);
      GroupShows(d, i, a.groups[i], a.members, env, from, idx, provIdx, back);
    }
  }

  lemma {:induction false} ProvidersShow(a: Answer, d: ConfigDraft, config: int, env: Env, back: seq<nat>,
                                         forth: seq<nat>)
    requires Inverse(back, forth) && |back| == |d.providers| == |a.providers| == |env.providerID|
    requires forall i :: 0 <= i < |back| ==>
               a.providers[back[i]] == ProviderRow(env.providerID[i], config, d.providers[i])
    ensures forall k :: 0 <= k < |a.providers| ==> a.providers[k].provider == d.providers[forth[k]]
  {
    forall k | 0 <= k < |a.providers| ensures a.providers[k].provider == d.providers[forth[k]] {
      assert back[forth[k]] == k;
    }
  }

  /**
   Saving an accepted draft and showing what any answers to the reads give: groups, base YAML
   and profile unchanged, the rules with their trees, and the providers in name order, with
   every RULE-SET index following its provider.
   */
  lemma {:induction false} SaveThenShow(db: DB, config: int, d: ConfigDraft, a: Answer)
    returns (back: seq<nat>, forth: seq<nat>)
    requires ValidDB(db) && Accepted(d) && Savable(db, config, d) && Possible(a, Saved(db, config, d), config)
    ensures Readable(a.rules) && Inverse(back, forth) && |back| == |d.providers|
    ensures var db' := Saved(db, config, d);
            ShownFrom(a, db'.baseYAML[config], db'.profiles[config]) == Embed(Canonical(d, back, forth))
    ensures InNameOrder(Canonical(d, back, forth).providers)
  {
    hide Resolves, GoodForest, LeadsBack, IndexMap, Linked, Stored, GroupRows, GroupOf, GroupToView, EmbedGroup,
         RuleBase, MemberRows, Flatten, EmbedRules, CanonRules, RulesToView, GroupAnswer, MemberAnswer, ProviderAnswer,
         RuleAnswer, GroupsAccepted, RulesAccepted, ValidDB, Readable, MembersResolve;
    var env := EnvOf(db, config, d);
    AcceptedIsSavable(db, config, d);
    AcceptedIffGoodGroups(d.groups);
    back, forth := ProvidersReadBack(a.providers, db, config, d);
    GroupsReadBack(a.groups, db, config, d);
    RulesReadBack(a.rules, db, config, d);
    ProviderIDsDiffer(a.providers, Saved(db, config, d).providers, config);
    IDsLeadBack(a, db, config, d, env, back, forth);
    var idx, provIdx := IndexMap(env.groupID), IndexMap(ProviderIDs(a.providers));
    RulesShow(d.rules, true, 0, RuleBase(db, config), env, idx, provIdx, back);
    GroupsShow(db, config, d, a, idx, provIdx, back);
    ProvidersShow(a, d, config, env, back, forth);
    Assemble(db, config, d, a, env, back, forth);
  }

  lemma {:induction false} ProviderIDsDiffer(rows: seq<ProviderRow>, table: seq<ProviderRow>, config: int)
    requires ProviderAnswer(rows, table, config)
    ensures forall i, j :: 0 <= i < j < |rows| ==> rows[i].id != rows[j].id
  {
  }

  lemma {:induction false} Assemble(db: DB, config: int, d: ConfigDraft, a: Answer, env: Env, back: seq<nat>,
                                    forth: seq<nat>)
    requires Readable(a.rules) && env == EnvOf(db, config, d) && a.groups == GroupRows(d.groups, config, db.groupSeq)
    requires Inverse(back, forth) && |back| == |d.providers| == |a.providers|
    requires forall k :: 0 <= k < |a.providers| ==> a.providers[k].provider == d.providers[forth[k]]
    requires forall i :: 0 <= i < |d.groups| ==>
               GroupToView(GroupOf(a.groups[i], a.members), IndexMap(env.groupID)) == EmbedGroup(d.groups[i])
    requires RulesToView(Linked(a.rules), IndexMap(env.groupID), IndexMap(ProviderIDs(a.providers))) ==
             EmbedRules(CanonRules(d.rules, back))
    ensures ShownFrom(a, d.baseYAML, d.profile) == Embed(Canonical(d, back, forth))
  {
    hide IndexMap, Linked, GroupToView, EmbedGroup, RulesToView, EmbedRules, CanonRules, Readable;
    var groups := seq(|a.groups|, i requires 0 <= i < |a.groups| => GroupOf(a.groups[i], a.members));
    assert GroupIDs(groups) == env.groupID;
    var shown, meant := ShownFrom(a, d.baseYAML, d.profile), Embed(Canonical(d, back, forth));
    assert shown.groups == meant.groups;
    assert shown.providers == meant.providers;
  }

  // ----- through the decoder again

  lemma {:induction false} CanonRuleIsNormal(r: RuleDraft, back: seq<nat>)
    requires NormalRule(r)
    ensures NormalRule(CanonRule(r, back))
    decreases r
  {
    forall k | 0 <= k < |r.children| ensures NormalRule(CanonRules(r.children, back)[k]) {
      assert r.children[k] in r.children;
      CanonRuleIsNormal(r.children[k], back);
    }
  }

  lemma {:induction false} CanonicalIsNormal(d: ConfigDraft, back: seq<nat>, forth: seq<nat>)
    requires Normal(d) && Inverse(back, forth) && |back| == |d.providers|
    ensures Normal(Canonical(d, back, forth))
  {
    hide NormalRule, NormalGroup, NormalProvider, CanonRule;
    var c := Canonical(d, back, forth);
    forall k | 0 <= k < |c.rules| ensures NormalRule(c.rules[k]) {
      assert d.rules[k] in d.rules;
      CanonRuleIsNormal(d.rules[k], back);
    }
    forall k | 0 <= k < |c.providers| ensures NormalProvider(c.providers[k]) {
      assert d.providers[forth[k]] in d.providers;
    }
  }

  /**
   The round trip of what came over the wire: decode, save, read, show, decode. It ends in the
   canonical form of the decoded draft, whatever else is stored and however the database
   answers; every RULE-SET index still means the same provider; and nothing at all has changed
   exactly when the providers were in name order and no rule had an explicit false no-resolve.
   */
  lemma {:induction false} RoundTrip(dto: ConfigDTO, db: DB, config: int, a: Answer)
    returns (back: seq<nat>, forth: seq<nat>)
    requires ValidDB(db) && Accepted(Decoded(dto)) && Savable(db, config, Decoded(dto))
    requires Possible(a, Saved(db, config, Decoded(dto)), config)
    ensures Readable(a.rules) && Inverse(back, forth) && |back| == |dto.providers|
    ensures var d, db' := Decoded(dto), Saved(db, config, Decoded(dto));
            Decoded(ShownFrom(a, db'.baseYAML[config], db'.profiles[config])) == d
            <==> InNameOrder(d.providers) && NoExplicitFalse(d.rules)
    ensures var d, db' := Decoded(dto), Saved(db, config, Decoded(dto));
            && Decoded(ShownFrom(a, db'.baseYAML[config], db'.profiles[config])) == Canonical(d, back, forth)
            && InNameOrder(Canonical(d, back, forth).providers)
            && forall i :: 0 <= i < |d.providers| ==> Canonical(d, back, forth).providers[back[i]] == d.providers[i]
  {
    hide ValidDB, Accepted, Savable, Possible, Readable, Linked, CanonRules, InNameOrder, Saved, Embed, Normal;
    var d := Decoded(dto);
    back, forth := SaveThenShow(db, config, d, a);
    DecodedIsNormal(dto);
    CanonicalIsNormal(d, back, forth);
    EmbedRound(Canonical(d, back, forth));
    UnchangedIff(d, back, forth);
  }

  /** The trip can always be made: the reads of a saved config have answers. */
  lemma {:induction false} TripExists(db: DB, config: int, d: ConfigDraft) returns (a: Answer)
    requires ValidDB(db) && Savable(db, config, d)
    ensures ValidDB(Saved(db, config, d)) && Possible(a, Saved(db, config, d), config)
  {
    hide ValidDB, Saved, Savable, GroupAnswer, MemberAnswer, ProviderAnswer, RuleAnswer;
    SaveKeepsValid(db, config, d);
    var groups, members, providers, rules := QueriesHaveAnswers(Saved(db, config, d), config);
    a := Answer(groups, members, providers, rules);
  }

  const EMPTY := DB([], [], [], [], {}, map[], map[], 0, 0, 0)

  function Listing(name: string): Provider {
    Provider(name, "domain", "text", "https://example.com", 0, false, 0)
  }

  /** A config with two providers, out of name order, and nothing else. */
  const UNORDERED := ConfigDTO([], [], [Listing("b"), Listing("a")], "", "title", "file", 1)

  /** A config with one rule, which spells out a false no-resolve. */
  const EXPLICIT := ConfigDTO(
    [], [RuleDTO("MATCH", None, None, Some(false), Some(RefDTO("direct", None, None)), [])], [], "", "title", "file", 1)

  lemma {:induction false} ExamplesDecode()
    ensures var d := Decoded(UNORDERED);
            d.groups == [] && d.rules == [] && d.providers == [Listing("b"), Listing("a")]
    ensures var d := Decoded(EXPLICIT);
            && d.groups == [] && d.providers == []
            && d.rules == [RuleDraft("MATCH", None, None, Some(false), Some(RefDraft("direct", None, None)), [])]
  {
    hide TrimSpace;
    assert DecodedProvider(Listing("b")) == Listing("b") && DecodedProvider(Listing("a")) == Listing("a");
  }

  lemma {:induction false} ExamplesAreAccepted(d: ConfigDraft)
    requires d == Decoded(UNORDERED) || d == Decoded(EXPLICIT)
    ensures Accepted(d)
  {
    ExamplesDecode();
    AcceptedIffGoodGroups(d.groups);
    AcceptedIffGoodRules(d.rules, |d.groups|, |d.providers|);
    NoCycleInNothing();
    forall k, x | 0 <= k < |d.rules| && x in Nodes(d.rules[k], true)
      ensures GoodNode(x.rule, x.top, |d.groups|, |d.providers|)
    {
      assert Nodes(d.rules[k], true) == [Node(d.rules[k], true)];
    }
  }

  lemma {:induction false} NoCycleInNothing()
    ensures !HasCycle([])
  {
    forall w ensures !ClosedWalk([], w) {
    }
  }

  /** Both deviations occur: either config is accepted, saved into an empty store, and comes back changed. */
  lemma {:induction false} TripsThatChange(dto: ConfigDTO, config: int) returns (a: Answer)
    requires dto == UNORDERED || dto == EXPLICIT
    ensures ValidDB(EMPTY) && Accepted(Decoded(dto)) && Savable(EMPTY, config, Decoded(dto))
    ensures var db' := Saved(EMPTY, config, Decoded(dto));
            && Possible(a, db', config) && Readable(a.rules)
            && Decoded(ShownFrom(a, db'.baseYAML[config], db'.profiles[config])) != Decoded(dto)
  {
    hide Accepted, Decoded, Savable, Saved, ValidDB, Possible, Readable, ShownFrom, Canonical, InNameOrder,
         NoExplicitFalse, InboundsExist, DistinctProviderNames, GoodForest, EMPTY, UNORDERED, EXPLICIT;
    var d := Decoded(dto);
    ExamplesAreAccepted(d);
    ExamplesDeviate(d);
    EmptyIsValid();
    AcceptedIsSavable(EMPTY, config, d);
    a := TripExists(EMPTY, config, d);
    var back, forth := RoundTrip(dto, EMPTY, config, a);
  }

  lemma {:induction false} EmptyIsValid()
    ensures ValidDB(EMPTY)
  {
  }

  lemma {:induction false} ExamplesDeviate(d: ConfigDraft)
    requires d == Decoded(UNORDERED) || d == Decoded(EXPLICIT)
    ensures DistinctProviderNames(d.providers) && InboundsExist(d, EMPTY.inbounds)
    ensures !InNameOrder(d.providers) || !NoExplicitFalse(d.rules)
  {
    ExamplesDecode();
    if d == Decoded(UNORDERED) {
      assert d.providers[0].name == "b" && d.providers[1].name == "a" && !NameLess("b", "a");
    } else {
      assert d.rules[0].noResolve == Some(false);
    }
  }

  // ----- when nothing changes

  /** No rule, at any depth, carries an explicit false no-resolve. */
  predicate NoExplicitFalse(rs: seq<RuleDraft>)
    decreases rs
  {
    rs == [] || (rs[0].noResolve != Some(false) && NoExplicitFalse(rs[0].children) && NoExplicitFalse(rs[1..]))
  }

  lemma {:induction false} CanonDropsFalse(rs: seq<RuleDraft>, back: seq<nat>)
    ensures NoExplicitFalse(CanonRules(rs, back))
    decreases rs
  {
    if rs == [] {
    } else {
      CanonDropsFalse(rs[0].children, back);
      CanonDropsFalse(rs[1..], back);
      assert CanonRules(rs, back)[1..] == CanonRules(rs[1..], back);
    }
  }

  lemma {:induction false} CanonKeeps(rs: seq<RuleDraft>, back: seq<nat>)
    requires NoExplicitFalse(rs) && forall i :: 0 <= i < |back| ==> back[i] == i
    ensures CanonRules(rs, back) == rs
    decreases rs
  {
    if rs == [] {
    } else {
      CanonKeeps(rs[0].children, back);
      CanonKeeps(rs[1..], back);
      assert rs[0].noResolve.Some? ==> rs[0].noResolve.value;
      assert rs == [rs[0]] + rs[1..];
    }
  }

  function ByName(): (Provider, Provider) -> bool {
    (p: Provider, q: Provider) => NameLess(p.name, q.name)
  }

  lemma {:induction false} SortedStaysInPlace(d: ConfigDraft, back: seq<nat>, forth: seq<nat>)
    requires Inverse(back, forth) && |back| == |d.providers|
    requires InNameOrder(d.providers) && InNameOrder(Canonical(d, back, forth).providers)
    ensures Canonical(d, back, forth).providers == d.providers && forall i :: 0 <= i < |back| ==> back[i] == i
  {
    hide CanonRules, NameLess;
    var c := Canonical(d, back, forth);
    forall p: Provider, q: Provider ensures ByName()(p, q) ==> !ByName()(q, p) {
      NameLessIsAsymmetric(p.name, q.name);
    }
    forall i | 0 <= i < |back| ensures d.providers[i] in c.providers {
      assert c.providers[back[i]] == d.providers[i];
    }
    SameIncreasing(c.providers, d.providers, ByName());
    forall k | 0 <= k < |forth| ensures forth[k] == k {
      assert d.providers[forth[k]] == d.providers[k];
      NamesAreKeys(d.providers, forth[k], k);
    }
  }

  lemma {:induction false} NamesAreKeys(providers: seq<Provider>, i: nat, j: nat)
    requires InNameOrder(providers) && i < |providers| && j < |providers| && providers[i] == providers[j]
    ensures i == j
  {
    NameLessIsAsymmetric(providers[i].name, providers[j].name);
  }

  /** Exactly when a config comes back as it went in. */
  lemma {:induction false} UnchangedIff(d: ConfigDraft, back: seq<nat>, forth: seq<nat>)
    requires Inverse(back, forth) && |back| == |d.providers| && InNameOrder(Canonical(d, back, forth).providers)
    ensures Canonical(d, back, forth) == d <==> InNameOrder(d.providers) && NoExplicitFalse(d.rules)
  {
    hide CanonRules, InNameOrder, NoExplicitFalse;
    CanonDropsFalse(d.rules, back);
    if InNameOrder(d.providers) && NoExplicitFalse(d.rules) {
      SortedStaysInPlace(d, back, forth);
      CanonKeeps(d.rules, back);
    }
  }

  // ----- the canonical form is accepted, and stays

  lemma {:induction false} CanonKeepsNode(r: RuleDraft, top: bool, back: seq<nat>, forth: seq<nat>, numGroups: nat)
    requires Inverse(back, forth)
    ensures NodeError(CanonRule(r, back), top, numGroups, |back|) == NodeError(r, top, numGroups, |back|)
  {
    hide ValidateRef;
    assert CanonRule(r, back).Validate() == r.Validate();
    SpecialTypes(r.typ);
  }

  lemma {:induction false} CanonKeepsRule(r: RuleDraft, top: bool, back: seq<nat>, forth: seq<nat>, numGroups: nat)
    requires Inverse(back, forth)
    ensures ValidateRule(CanonRule(r, back), top, numGroups, |back|) == ValidateRule(r, top, numGroups, |back|)
    decreases r, 1
  {
    hide NodeError;
    CanonKeepsNode(r, top, back, forth, numGroups);
    CanonKeepsChildren(r.children, back, forth, numGroups);
  }

  lemma {:induction false} CanonKeepsChildren(rs: seq<RuleDraft>, back: seq<nat>, forth: seq<nat>, numGroups: nat)
    requires Inverse(back, forth)
    ensures ValidateChildren(CanonRules(rs, back), numGroups, |back|) == ValidateChildren(rs, numGroups, |back|)
    decreases rs, 0
  {
    hide ValidateRule;
    if rs == [] {
    } else {
      CanonKeepsRule(rs[0], false, back, forth, numGroups);
      CanonKeepsChildren(rs[1..], back, forth, numGroups);
      assert CanonRules(rs, back)[1..] == CanonRules(rs[1..], back);
    }
  }

  lemma {:induction false} CanonKeepsUpTo(rules: seq<RuleDraft>, n: nat, back: seq<nat>, forth: seq<nat>,
                                          numGroups: nat)
    requires Inverse(back, forth) && n <= |rules|
    ensures First(RoutingChecksUpTo(CanonRules(rules, back), n, numGroups, |back|)) ==
            First(RoutingChecksUpTo(rules, n, numGroups, |back|))
  {
    hide ValidateRule, ChecksOf, CanonRules;
    if n == 0 {
    } else {
      hide RoutingChecksUpTo, First, Inverse;
      CanonKeepsUpTo(rules, n - 1, back, forth, numGroups);
      CanonKeepsRule(rules[n - 1], true, back, forth, numGroups);
      RuleDecides(rules, n - 1, numGroups, |back|);
      RuleDecides(CanonRules(rules, back), n - 1, numGroups, |back|);
    }
  }

  /**
   One trip is enough: what comes out is accepted, savable again in any store that knows its
   inbounds, and a second trip, with any answers, gives it back unchanged.
   */
  lemma {:induction false} SecondTripChangesNothing(d: ConfigDraft, back: seq<nat>, forth: seq<nat>,
                                                    db: DB, config: int, a: Answer)
    requires Accepted(d) && Inverse(back, forth) && |back| == |d.providers|
    requires InNameOrder(Canonical(d, back, forth).providers)
    ensures Accepted(Canonical(d, back, forth))
    ensures InboundsExist(d, db.inbounds) ==> Savable(db, config, Canonical(d, back, forth))
    ensures var c := Canonical(d, back, forth);
            InboundsExist(d, db.inbounds) && ValidDB(db) && Possible(a, Saved(db, config, c), config) ==>
              Readable(a.rules) && ShownFrom(a, c.baseYAML, c.profile) == Embed(c)
  {
    hide CanonRules, NameLess, Embed, ShownFrom, Resolves, NoExplicitFalse, ValidDB, Possible, Readable, RuleBase,
         GroupsAccepted;
    var c := Canonical(d, back, forth);
    CanonKeepsUpTo(d.rules, |d.rules|, back, forth, |d.groups|);
    AcceptedIsSavable(db, config, c);
    InOrderIsDistinct(c.providers);
    CanonKeepsTargets(d.rules, back, db.inbounds);
    if InboundsExist(d, db.inbounds) && ValidDB(db) && Possible(a, Saved(db, config, c), config) {
      var back', forth' := SaveThenShow(db, config, c, a);
      CanonDropsFalse(d.rules, back);
      UnchangedIff(c, back', forth');
    }
  }

  lemma {:induction false} CanonKeepsTargets(rs: seq<RuleDraft>, back: seq<nat>, inbounds: set<int>)
    ensures (forall r :: r in rs ==> KnownTarget(r, inbounds)) ==>
              forall r :: r in CanonRules(rs, back) ==> KnownTarget(r, inbounds)
  {
    forall k | 0 <= k < |rs| ensures rs[k] in rs && CanonRules(rs, back)[k].target == rs[k].target {
    }
  }

  lemma {:induction false} InOrderIsDistinct(providers: seq<Provider>)
    requires InNameOrder(providers)
    ensures DistinctProviderNames(providers)
  {
    forall i, j | 0 <= i < j < |providers| ensures providers[i].name != providers[j].name {
      NameLessIsAsymmetric(providers[i].name, providers[j].name);
    }
  }
}
