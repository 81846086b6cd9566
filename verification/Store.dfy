/**
 The stored configs: replacing one config's content in a transaction, and reading it back. A
 query answer may be any sequence that holds each matching row once in the asked order.
 */
module Store {
  import opened Wrappers
  import opened Drafts
  import opened Tables
  import opened RuleRows

  datatype GroupRow = GroupRow(
    id: int, config: int, position: nat, name: string, typ: string, url: string,
    interval: Option<int>, tolerance: Option<int>, lazy: Option<bool>)

  datatype MemberRow = MemberRow(
    id: int, group: int, position: nat, kind: string, inbound: Option<int>, refGroup: Option<int>)

  datatype ProviderRow = ProviderRow(id: int, config: int, provider: Provider)

  /**
   The tables, with the AUTOINCREMENT counters of those whose ids the database assigns, and the
   ids of the nodes' inbounds, which no save changes.
   */
  datatype DB = DB(
    groups: seq<GroupRow>,
    members: seq<MemberRow>,
    providers: seq<ProviderRow>,
    rules: seq<RuleRow>,
    inbounds: set<int>,
    baseYAML: map<int, string>,
    profiles: map<int, Profile>,
    groupSeq: nat,
    memberSeq: nat,
    providerSeq: nat)

  /** Ids are unique, and within a config names and positions are. */
  function GroupsDiffer(): (GroupRow, GroupRow) -> bool {
    (a: GroupRow, b: GroupRow) =>
      a.id != b.id && (a.config == b.config ==> a.name != b.name && a.position != b.position)
  }

  function MembersDiffer(): (MemberRow, MemberRow) -> bool {
    (a: MemberRow, b: MemberRow) => a.id != b.id && (a.group == b.group ==> a.position != b.position)
  }

  function ProvidersDiffer(): (ProviderRow, ProviderRow) -> bool {
    (a: ProviderRow, b: ProviderRow) =>
      a.id != b.id && (a.config == b.config ==> a.provider.name != b.provider.name)
  }

  predicate HasGroup(groups: seq<GroupRow>, id: int, config: int) {
    exists g :: g in groups && g.id == id && g.config == config
  }

  predicate HasProvider(providers: seq<ProviderRow>, id: int, config: int) {
    exists p :: p in providers && p.id == id && p.config == config
  }

  /** A member belongs to a group and refers to a group of the same config or to an inbound. */
  ghost predicate MemberRefers(m: MemberRow, db: DB) {
    && (exists c :: HasGroup(db.groups, m.group, c) && (m.refGroup.Some? ==> HasGroup(db.groups, m.refGroup.value, c)))
    && (m.inbound.Some? ==> m.inbound.value in db.inbounds)
  }

  /** A rule refers to groups, providers and rules of its own config, and to inbounds. */
  ghost predicate RuleRefers(x: RuleRow, db: DB) {
    && (x.group.Some? ==> HasGroup(db.groups, x.group.value, x.config))
    && (x.provider.Some? ==> HasProvider(db.providers, x.provider.value, x.config))
    && (x.parent.Some? ==> HasRule(db.rules, x.parent, x.config))
    && (x.inbound.Some? ==> x.inbound.value in db.inbounds)
  }

  /** The foreign keys: no reference leads nowhere, and none into another config. */
  ghost predicate References(db: DB) {
    (forall m :: m in db.members ==> MemberRefers(m, db)) && forall x :: x in db.rules ==> RuleRefers(x, db)
  }

  ghost predicate ValidDB(db: DB) { Numbered(db) && References(db) }

  /**
   Ids unique and below the counters, rule parents before their children, names unique within a
   config, and positions unique among siblings.
   */
  ghost predicate Numbered(db: DB) {
    && (forall g :: g in db.groups ==> 0 < g.id <= db.groupSeq) && Increasing(db.groups, GroupsDiffer())
    && (forall m :: m in db.members ==> m.id <= db.memberSeq && m.group <= db.groupSeq)
    && Increasing(db.members, MembersDiffer())
    && (forall p :: p in db.providers ==> p.id <= db.providerSeq) && Increasing(db.providers, ProvidersDiffer())
    && (forall x :: x in db.rules ==> 0 < x.id && (x.parent.Some? ==> x.parent.value < x.id))
    && Increasing(db.rules, RulesApart())
  }

  // ----- the rows of a draft

  /** The ids that the database gives to n rows inserted together. */
  function NewIDs(n: nat, last: nat): (ids: seq<int>)
    ensures |ids| == n
    ensures forall i :: 0 <= i < n ==> ids[i] == last + 1 + i
  {
    seq(n, i requires 0 <= i < n => last + 1 + i)
  }

  function GroupRowOf(g: GroupDraft, id: int, config: int, position: nat): GroupRow {
    GroupRow(id, config, position, g.name, g.typ, g.url, g.interval, g.tolerance, g.lazy)
  }

  ghost function GroupRows(groups: seq<GroupDraft>, config: int, last: nat): (rows: seq<GroupRow>)
    ensures |rows| == |groups|
  {
    seq(|groups|, i requires 0 <= i < |groups| => GroupRowOf(groups[i], last + 1 + i, config, i))
  }

  ghost function ProviderRows(providers: seq<Provider>, config: int, last: nat): (rows: seq<ProviderRow>)
    ensures |rows| == |providers|
  {
    seq(|providers|, i requires 0 <= i < |providers| => ProviderRow(last + 1 + i, config, providers[i]))
  }

  function MemberRowOf(m: RefDraft, id: int, group: int, position: nat, groupID: seq<int>): MemberRow
    requires RefResolves(m, groupID)
  {
    MemberRow(id, group, position, m.kind, InboundColumn(m), GroupColumn(m, groupID))
  }

  predicate MembersResolve(groups: seq<GroupDraft>, groupID: seq<int>) {
    forall i, j :: 0 <= i < |groups| && 0 <= j < |groups[i].members| ==> RefResolves(groups[i].members[j], groupID)
  }

  /** The member rows of one group. */
  ghost function MembersOf(members: seq<RefDraft>, group: int, groupID: seq<int>, last: nat): (rows: seq<MemberRow>)
    requires forall j :: 0 <= j < |members| ==> RefResolves(members[j], groupID)
    ensures |rows| == |members|
  {
    seq(|members|, j requires 0 <= j < |members| => MemberRowOf(members[j], last + 1 + j, group, j, groupID))
  }

  /** The member rows of the first n groups, group after group. */
  ghost function MemberRows(groups: seq<GroupDraft>, n: nat, groupID: seq<int>, last: nat): seq<MemberRow>
    requires n <= |groups| <= |groupID| && MembersResolve(groups, groupID)
  {
    if n == 0 then []
    else
      var before := MemberRows(groups, n - 1, groupID, last);
      before + MembersOf(groups[n - 1].members, groupID[n - 1], groupID, last + |before|)
  }

  // ----- saving

  predicate DistinctGroupNames(groups: seq<GroupDraft>) {
    forall i, j :: 0 <= i < j < |groups| ==> groups[i].name != groups[j].name
  }

  predicate DistinctProviderNames(providers: seq<Provider>) {
    forall i, j :: 0 <= i < j < |providers| ==> providers[i].name != providers[j].name
  }

  function GroupOutside(config: int): GroupRow -> bool { (g: GroupRow) => g.config != config }
  function ProviderOutside(config: int): ProviderRow -> bool { (p: ProviderRow) => p.config != config }
  function RuleOutside(config: int): RuleRow -> bool { (r: RuleRow) => r.config != config }
  function MemberOutside(groups: set<int>): MemberRow -> bool { (m: MemberRow) => m.group !in groups }

  function OwnGroups(db: DB, config: int): set<int> {
    set g | g in db.groups && g.config == config :: g.id
  }

  function EnvOf(db: DB, config: int, d: ConfigDraft): Env {
    Env(config, NewIDs(|d.groups|, db.groupSeq), NewIDs(|d.providers|, db.providerSeq))
  }

  /** The CHECK constraint and the inbound key of a member row. */
  predicate MemberFits(m: MemberRow, inbounds: set<int>) {
    && (m.kind == POLICY_INBOUND <==> m.inbound.Some?) && (m.kind == POLICY_GROUP <==> m.refGroup.Some?)
    && (m.inbound.Some? ==> m.inbound.value in inbounds)
  }

  /** The CHECK constraints and the inbound key of a rule row. */
  predicate RuleFits(x: RuleRow, inbounds: set<int>) {
    PassesChecks(x) && (x.inbound.Some? ==> x.inbound.value in inbounds)
  }

  ghost predicate MembersFit(db: DB, config: int, d: ConfigDraft)
    requires MembersResolve(d.groups, EnvOf(db, config, d).groupID)
  {
    forall m :: m in MemberRows(d.groups, |d.groups|, EnvOf(db, config, d).groupID, db.memberSeq) ==>
      MemberFits(m, db.inbounds)
  }

  ghost predicate RulesFit(db: DB, config: int, d: ConfigDraft)
    requires Resolves(d.rules, EnvOf(db, config, d))
  {
    forall x :: x in Flatten(d.rules, 0, None, RuleBase(db, config), EnvOf(db, config, d)) ==> RuleFits(x, db.inbounds)
  }

  /** What the tables accept: unique names, references that can be turned into ids, rows within the constraints. */
  ghost predicate Savable(db: DB, config: int, d: ConfigDraft) {
    && DistinctGroupNames(d.groups) && DistinctProviderNames(d.providers)
    && MembersResolve(d.groups, EnvOf(db, config, d).groupID)
    && Resolves(d.rules, EnvOf(db, config, d))
    && MembersFit(db, config, d) && RulesFit(db, config, d)
  }

  /** The tables after the config's rows were deleted. */
  ghost function Cleared(db: DB, config: int): DB {
    db.(groups := Filter(db.groups, GroupOutside(config)),
        members := Filter(db.members, MemberOutside(OwnGroups(db, config))),
        providers := Filter(db.providers, ProviderOutside(config)),
        rules := Filter(db.rules, RuleOutside(config)))
  }

  ghost function RuleBase(db: DB, config: int): nat {
    MaxID(Filter(db.rules, RuleOutside(config)))
  }

  /** The tables after the config's content was replaced by the draft. */
  ghost function Saved(db: DB, config: int, d: ConfigDraft): DB
    requires Savable(db, config, d)
  {
    var env := EnvOf(db, config, d);
    var members := MemberRows(d.groups, |d.groups|, env.groupID, db.memberSeq);
    DB(Filter(db.groups, GroupOutside(config)) + GroupRows(d.groups, config, db.groupSeq),
       Filter(db.members, MemberOutside(OwnGroups(db, config))) + members,
       Filter(db.providers, ProviderOutside(config)) + ProviderRows(d.providers, config, db.providerSeq),
       Filter(db.rules, RuleOutside(config)) + Flatten(d.rules, 0, None, RuleBase(db, config), env),
       db.inbounds,
       db.baseYAML[config := d.baseYAML],
       db.profiles[config := d.profile],
       db.groupSeq + |d.groups|,
       db.memberSeq + |members|,
       db.providerSeq + |d.providers|)
  }

  datatype SaveError = ProviderNameTaken | Internal

  class Repository {
    var db: DB

    constructor ()
      ensures db == DB([], [], [], [], {}, map[], map[], 0, 0, 0) && ValidDB(db)
    {
      db := DB([], [], [], [], {}, map[], map[], 0, 0, 0);
    }

    static method BuildGroups(groups: seq<GroupDraft>, config: int, last: nat) returns (rows: seq<GroupRow>)
      ensures rows == GroupRows(groups, config, last)
    {
      rows := [];
      for i := 0 to |groups|
        invariant rows == GroupRows(groups, config, last)[..i]
      {
        rows := rows + [GroupRowOf(groups[i], last + 1 + i, config, i)];
      }
    }

    static method BuildProviders(providers: seq<Provider>, config: int, last: nat) returns (rows: seq<ProviderRow>)
      ensures rows == ProviderRows(providers, config, last)
    {
      rows := [];
      for i := 0 to |providers|
        invariant rows == ProviderRows(providers, config, last)[..i]
      {
        rows := rows + [ProviderRow(last + 1 + i, config, providers[i])];
      }
    }

    /** The rows of all members, with their references turned into ids; not ok when one does not resolve. */
    static method BuildMembers(groups: seq<GroupDraft>, groupID: seq<int>, last: nat)
      returns (ok: bool, rows: seq<MemberRow>)
      requires |groups| <= |groupID|
      ensures ok <==> MembersResolve(groups, groupID)
      ensures ok ==> rows == MemberRows(groups, |groups|, groupID, last)
    {
      hide RefResolves;
      rows := [];
      for i := 0 to |groups|
        invariant forall a, b :: 0 <= a < i && 0 <= b < |groups[a].members| ==>
                    RefResolves(groups[a].members[b], groupID)
        invariant MembersResolve(groups, groupID) ==> rows == MemberRows(groups, i, groupID, last)
      {
        var members := groups[i].members;
        ghost var before := rows;
        for j := 0 to |members|
          invariant forall b :: 0 <= b < j ==> RefResolves(members[b], groupID)
          invariant MembersResolve(groups, groupID) ==>
                      rows == before + MembersOf(members, groupID[i], groupID, last + |before|)[..j]
        {
          if !RefResolves(members[j], groupID) {
            return false, rows;
          }
          rows := rows + [MemberRowOf(members[j], last + |rows| + 1, groupID[i], j, groupID)];
        }
      }
      ok := true;
    }

    /**
     One transaction: all tables take over the draft, or nothing changes. A draft with a
     repeated provider name is told apart from every other failure.
     */
    method SaveMihomoConfig(config: int, d: ConfigDraft) returns (err: Option<SaveError>)
      requires ValidDB(db)
      modifies this
      ensures err.None? <==> Savable(old(db), config, d)
      ensures err == Some(ProviderNameTaken) <==> DistinctGroupNames(d.groups) && !DistinctProviderNames(d.providers)
      ensures db == if err.None? then Saved(old(db), config, d) else old(db)
      ensures ValidDB(db)
    {
      hide ValidDB, MemberFits, RuleFits, Filter, Flatten, Resolves, MemberRows, MembersResolve, DistinctGroupNames,
           DistinctProviderNames, GroupRows, ProviderRows, MaxID;
      var env := EnvOf(db, config, d);
      var keptRules := Filter(db.rules, RuleOutside(config));
      var keptMembers := Filter(db.members, MemberOutside(OwnGroups(db, config)));
      var keptGroups := Filter(db.groups, GroupOutside(config));
      var keptProviders := Filter(db.providers, ProviderOutside(config));

      var groupRows := BuildGroups(d.groups, config, db.groupSeq);
      if !DistinctGroupNames(d.groups) {
        return Some(Internal);
      }
      var providerRows := BuildProviders(d.providers, config, db.providerSeq);
      if !DistinctProviderNames(d.providers) {
        return Some(ProviderNameTaken);
      }
      var ok, memberRows := BuildMembers(d.groups, env.groupID, db.memberSeq);
      if !ok || exists m :: m in memberRows && !MemberFits(m, db.inbounds) {
        return Some(Internal);
      }
      var builder := new RowBuilder(MaxID(keptRules));
      ok := builder.Build(d.rules, None, env);
      if !ok || exists x :: x in builder.rows && !RuleFits(x, db.inbounds) {
        return Some(Internal);
      }

      db := DB(keptGroups + groupRows, keptMembers + memberRows, keptProviders + providerRows,
               keptRules + builder.rows,
               db.inbounds,
               db.baseYAML[config := d.baseYAML], db.profiles[config := d.profile],
               db.groupSeq + |groupRows|, db.memberSeq + |memberRows|, db.providerSeq + |providerRows|);
      SaveKeepsValid(old(db), config, d);
      err := None;
    }
  }

  // ----- what a save leaves in the tables

  /** The deletions leave no reference behind: what stays refers only to what stays. */
  lemma {:induction false} ClearedIsValid(db: DB, config: int)
    requires ValidDB(db)
    ensures ValidDB(Cleared(db, config))
  {
    hide Increasing;
    var kept := Cleared(db, config);
    Kept(db.groups, GroupOutside(config), GroupsDiffer());
    Kept(db.members, MemberOutside(OwnGroups(db, config)), MembersDiffer());
    Kept(db.providers, ProviderOutside(config), ProvidersDiffer());
    Kept(db.rules, RuleOutside(config), RulesApart());
    forall m | m in kept.members ensures MemberRefers(m, kept) {
      var c :| HasGroup(db.groups, m.group, c) && (m.refGroup.Some? ==> HasGroup(db.groups, m.refGroup.value, c));
      assert c != config;
      assert HasGroup(kept.groups, m.group, c);
    }
  }

  /** Unique ids stay unique: the kept rows have old ids and the added ones new ids. */
  lemma {:induction false} SaveKeepsNumbered(db: DB, config: int, d: ConfigDraft)
    requires Numbered(db) && Savable(db, config, d)
    ensures Numbered(Saved(db, config, d))
  {
    hide Resolves, Flatten, NodeResolves, RowOf, MemberRows, RefResolves, Increasing, RuleBase, MembersFit, RulesFit;
    var env := EnvOf(db, config, d);
    var members := MemberRows(d.groups, |d.groups|, env.groupID, db.memberSeq);
    MembersNumbered(d.groups, |d.groups|, env.groupID, db.memberSeq);
    MemberGroups(d.groups, |d.groups|, env.groupID, db.memberSeq);
    DistinctAdded(db, config, d);
    RulesStayDistinct(db, config, d);
    KeptAndAdded(db.groups, GroupOutside(config), GroupRows(d.groups, config, db.groupSeq), GroupsDiffer());
    KeptAndAdded(db.members, MemberOutside(OwnGroups(db, config)), members, MembersDiffer());
    KeptAndAdded(db.providers, ProviderOutside(config), ProviderRows(d.providers, config, db.providerSeq),
                 ProvidersDiffer());
  }

  /** References stay within the tables and within a config: kept rows refer to kept ones, added rows to added ones. */
  lemma {:induction false} SaveKeepsReferences(db: DB, config: int, d: ConfigDraft)
    requires ValidDB(db) && Savable(db, config, d)
    ensures References(Saved(db, config, d))
  {
    hide Resolves, Flatten, MemberRows, RefResolves, Increasing, RuleBase, Numbered, MemberRefers, RuleRefers,
         MembersResolve, MembersFit, RulesFit;
    ClearedIsValid(db, config);
    var saved, kept := Saved(db, config, d), Cleared(db, config);
    forall m | m in saved.members ensures MemberRefers(m, saved) {
      if m in kept.members {
        MemberStillRefers(m, kept, saved);
      } else {
        AddedMemberRefers(m, db, config, d);
      }
    }
    forall x | x in saved.rules ensures RuleRefers(x, saved) {
      if x in kept.rules {
        RuleStillRefers(x, kept, saved);
      } else {
        AddedRuleRefers(x, db, config, d);
      }
    }
  }

  lemma {:induction false} MemberStillRefers(m: MemberRow, db: DB, more: DB)
    requires MemberRefers(m, db) && db.groups <= more.groups && db.inbounds == more.inbounds
    ensures MemberRefers(m, more)
  {
    assert forall id, c :: HasGroup(db.groups, id, c) ==> HasGroup(more.groups, id, c);
  }

  lemma {:induction false} RuleStillRefers(x: RuleRow, db: DB, more: DB)
    requires RuleRefers(x, db)
    requires db.groups <= more.groups && db.providers <= more.providers && db.rules <= more.rules
    requires db.inbounds == more.inbounds
    ensures RuleRefers(x, more)
  {
  }

  lemma {:induction false} NewIDsExist(db: DB, config: int, d: ConfigDraft)
    requires Savable(db, config, d)
    ensures forall id :: id in EnvOf(db, config, d).groupID ==> HasGroup(Saved(db, config, d).groups, id, config)
    ensures forall id :: id in EnvOf(db, config, d).providerID ==>
              HasProvider(Saved(db, config, d).providers, id, config)
  {
    hide Resolves, Flatten, MemberRows, MembersResolve, MembersFit, RulesFit, RuleBase;
    var env, saved := EnvOf(db, config, d), Saved(db, config, d);
    forall i | 0 <= i < |env.groupID| ensures HasGroup(saved.groups, env.groupID[i], config) {
      assert GroupRows(d.groups, config, db.groupSeq)[i] in saved.groups;
    }
    forall i | 0 <= i < |env.providerID| ensures HasProvider(saved.providers, env.providerID[i], config) {
      assert ProviderRows(d.providers, config, db.providerSeq)[i] in saved.providers;
    }
  }

  lemma {:induction false} AddedMemberRefers(m: MemberRow, db: DB, config: int, d: ConfigDraft)
    requires Savable(db, config, d)
    requires m in MemberRows(d.groups, |d.groups|, EnvOf(db, config, d).groupID, db.memberSeq)
    ensures MemberRefers(m, Saved(db, config, d))
  {
    hide Resolves, Flatten, MemberRows, RulesFit, RuleBase, MembersResolve;
    NewIDsExist(db, config, d);
    MemberGroups(d.groups, |d.groups|, EnvOf(db, config, d).groupID, db.memberSeq);
    assert HasGroup(Saved(db, config, d).groups, m.group, config);
  }

  lemma {:induction false} AddedRuleRefers(x: RuleRow, db: DB, config: int, d: ConfigDraft)
    requires Savable(db, config, d)
    requires x in Flatten(d.rules, 0, None, RuleBase(db, config), EnvOf(db, config, d))
    ensures RuleRefers(x, Saved(db, config, d))
  {
    hide Resolves, Flatten, MemberRows, MembersFit, RuleBase, MembersResolve;
    var env := EnvOf(db, config, d);
    NewIDsExist(db, config, d);
    Scope(d.rules, 0, None, RuleBase(db, config), env);
    FlattenRefers(d.rules, 0, None, RuleBase(db, config), env);
  }

  lemma {:induction false} SaveKeepsValid(db: DB, config: int, d: ConfigDraft)
    requires ValidDB(db) && Savable(db, config, d)
    ensures ValidDB(Saved(db, config, d))
  {
    hide Numbered, References, Savable, Saved;
    SaveKeepsNumbered(db, config, d);
    SaveKeepsReferences(db, config, d);
  }

  lemma {:induction false} Kept<T>(table: seq<T>, keep: T -> bool, differ: (T, T) -> bool)
    requires Increasing(table, differ)
    ensures Increasing(Filter(table, keep), differ)
  {
    FilterIncreasing(table, keep, differ);
  }

  lemma {:induction false} KeptAndAdded<T>(table: seq<T>, keep: T -> bool, added: seq<T>, differ: (T, T) -> bool)
    requires Increasing(table, differ) && Increasing(added, differ)
    requires forall x, y :: x in table && keep(x) && y in added ==> differ(x, y)
    ensures Increasing(Filter(table, keep) + added, differ)
  {
    FilterIncreasing(table, keep, differ);
    IncreasingConcat(Filter(table, keep), added, differ);
  }

  lemma {:induction false} DistinctAdded(db: DB, config: int, d: ConfigDraft)
    requires DistinctGroupNames(d.groups) && DistinctProviderNames(d.providers)
    ensures Increasing(GroupRows(d.groups, config, db.groupSeq), GroupsDiffer())
    ensures Increasing(ProviderRows(d.providers, config, db.providerSeq), ProvidersDiffer())
  {
  }

  /** Member ids are counted up over all groups, positions within each. */
  lemma {:induction false} MembersNumbered(groups: seq<GroupDraft>, n: nat, groupID: seq<int>, last: nat)
    requires n <= |groups| <= |groupID| && MembersResolve(groups, groupID)
    requires forall a, b :: 0 <= a < b < |groupID| ==> groupID[a] != groupID[b]
    ensures forall x :: x in MemberRows(groups, n, groupID, last) ==>
              last < x.id <= last + |MemberRows(groups, n, groupID, last)|
    ensures Increasing(MemberRows(groups, n, groupID, last), MembersDiffer())
  {
    hide RefResolves, Increasing, MembersOf;
    if n == 0 {
      NoMembersDiffer();
    } else {
      MembersNumbered(groups, n - 1, groupID, last);
      var before := MemberRows(groups, n - 1, groupID, last);
      var here := MembersOf(groups[n - 1].members, groupID[n - 1], groupID, last + |before|);
      MemberGroups(groups, n - 1, groupID, last);
      OneGroupNumbered(groups[n - 1].members, groupID[n - 1], groupID, last + |before|);
      forall x, y | x in before && y in here ensures MembersDiffer()(x, y) {
        var i :| 0 <= i < n - 1 && groupID[..n - 1][i] == x.group;
      }
      IncreasingConcat(before, here, MembersDiffer());
    }
  }

  lemma {:induction false} NoMembersDiffer()
    ensures Increasing([], MembersDiffer())
  {
  }

  lemma {:induction false} OneGroupNumbered(members: seq<RefDraft>, group: int, groupID: seq<int>, last: nat)
    requires forall j :: 0 <= j < |members| ==> RefResolves(members[j], groupID)
    ensures forall x :: x in MembersOf(members, group, groupID, last) ==>
              last < x.id <= last + |members| && x.group == group
    ensures Increasing(MembersOf(members, group, groupID, last), MembersDiffer())
  {
    hide RefResolves;
  }

  lemma {:induction false} RulesStayDistinct(db: DB, config: int, d: ConfigDraft)
    requires Numbered(db) && Savable(db, config, d)
    ensures Increasing(Saved(db, config, d).rules, RulesApart())
    ensures forall x :: x in Saved(db, config, d).rules ==> 0 < x.id && (x.parent.Some? ==> x.parent.value < x.id)
  {
    hide Resolves, Flatten, NodeResolves, RowOf, MemberRows;
    var env := EnvOf(db, config, d);
    Scope(d.rules, 0, None, RuleBase(db, config), env);
    FlattenApart(d.rules, 0, None, RuleBase(db, config), env);
    FilterIncreasing(db.rules, RuleOutside(config), RulesApart());
    IncreasingConcat(Filter(db.rules, RuleOutside(config)), Flatten(d.rules, 0, None, RuleBase(db, config), env),
                     RulesApart());
  }

  /** Members belong and refer to groups that were given ids. */
  lemma {:induction false} MemberGroups(groups: seq<GroupDraft>, n: nat, groupID: seq<int>, last: nat)
    requires n <= |groups| <= |groupID| && MembersResolve(groups, groupID)
    ensures forall x :: x in MemberRows(groups, n, groupID, last) ==>
              x.group in groupID[..n] && (x.refGroup.Some? ==> x.refGroup.value in groupID)
  {
    if n == 0 {
    } else {
      MemberGroups(groups, n - 1, groupID, last);
      assert groupID[..n] == groupID[..n - 1] + [groupID[n - 1]];
    }
  }

  /** Saving one config leaves every row of every other config as it was, in all tables and in their order. */
  lemma {:induction false} OtherConfigsUntouched(db: DB, config: int, d: ConfigDraft)
    requires ValidDB(db) && Savable(db, config, d)
    ensures var db' := Saved(db, config, d);
            && Filter(db'.groups, GroupOutside(config)) == Filter(db.groups, GroupOutside(config))
            && Filter(db'.providers, ProviderOutside(config)) == Filter(db.providers, ProviderOutside(config))
            && Filter(db'.rules, RuleOutside(config)) == Filter(db.rules, RuleOutside(config))
            && Filter(db'.members, MemberOutside(OwnGroups(db', config)))
               == Filter(db.members, MemberOutside(OwnGroups(db, config)))
            && db'.inbounds == db.inbounds
            && (forall c :: c != config ==> (c in db'.baseYAML <==> c in db.baseYAML))
            && (forall c :: c != config && c in db.baseYAML ==> db'.baseYAML[c] == db.baseYAML[c])
            && (forall c :: c != config ==> (c in db'.profiles <==> c in db.profiles))
            && (forall c :: c != config && c in db.profiles ==> db'.profiles[c] == db.profiles[c])
  {
    hide Resolves, Flatten, NodeResolves, RowOf, Filter, MemberRows;
    var env := EnvOf(db, config, d);
    Scope(d.rules, 0, None, RuleBase(db, config), env);
    FilterReplaced(Filter(db.groups, GroupOutside(config)), GroupRows(d.groups, config, db.groupSeq),
                   GroupOutside(config));
    FilterReplaced(Filter(db.providers, ProviderOutside(config)), ProviderRows(d.providers, config, db.providerSeq),
                   ProviderOutside(config));
    FilterReplaced(Filter(db.rules, RuleOutside(config)), Flatten(d.rules, 0, None, RuleBase(db, config), env),
                   RuleOutside(config));
    MembersUntouched(db, config, d);
  }

  /** The rows that a save adds are within the constraints of their tables. */
  lemma {:induction false} AddedRowsAreConstrained(db: DB, config: int, d: ConfigDraft)
    requires ValidDB(db) && Savable(db, config, d)
    ensures forall x :: x in Saved(db, config, d).rules && x.config == config ==>
              && (x.parent.None? <==> x.kind.Some?)
              && (x.kind.Some? ==> (x.kind.value == "inbound" <==> x.inbound.Some?))
              && (x.kind.Some? ==> (x.kind.value == "group" <==> x.group.Some?))
    ensures forall m :: m in Saved(db, config, d).members && m.group in OwnGroups(Saved(db, config, d), config) ==>
              (m.kind == "inbound" <==> m.inbound.Some?) && (m.kind == "group" <==> m.refGroup.Some?)
  {
    hide Resolves, Flatten, NodeResolves, RowOf, MemberRows, MembersResolve, RuleBase, Increasing, References,
         OwnGroups;
    OwnGroupsAreNew(db, config, d);
  }

  /** Rule ids are counted on from the largest one that stays. */
  lemma {:induction false} RuleIDsFollow(db: DB, config: int, d: ConfigDraft) returns (m: nat)
    requires Savable(db, config, d)
    ensures m == 0 || exists x :: x in db.rules && x.config != config && x.id == m
    ensures forall x :: x in db.rules && x.config != config ==> x.id <= m
    ensures forall x :: x in Saved(db, config, d).rules && x.config == config ==> m < x.id <= m + Size(d.rules)
  {
    hide Resolves, Flatten, NodeResolves, RowOf, MemberRows, MembersFit, RulesFit, MembersResolve;
    m := RuleBase(db, config);
    Scope(d.rules, 0, None, m, EnvOf(db, config, d));
  }

  // ----- what a save leaves alone

  /** Everything stored for config c is the same in both databases. */
  ghost predicate SameRows(db: DB, db': DB, c: int) {
    && (forall g :: g in db.groups && g.config == c ==> g in db'.groups)
    && (forall g :: g in db'.groups && g.config == c ==> g in db.groups)
    && (forall m :: m in db.members && HasGroup(db.groups, m.group, c) ==> m in db'.members)
    && (forall m :: m in db'.members && HasGroup(db'.groups, m.group, c) ==> m in db.members)
    && (forall p :: p in db.providers && p.config == c ==> p in db'.providers)
    && (forall p :: p in db'.providers && p.config == c ==> p in db.providers)
    && (forall x :: x in db.rules && x.config == c ==> x in db'.rules)
    && (forall x :: x in db'.rules && x.config == c ==> x in db.rules)
    && (c in db.baseYAML <==> c in db'.baseYAML) && (c in db.baseYAML ==> db'.baseYAML[c] == db.baseYAML[c])
    && (c in db.profiles <==> c in db'.profiles) && (c in db.profiles ==> db'.profiles[c] == db.profiles[c])
  }

  /** A save touches the rows of its own config and no others, settings and profile included. */
  lemma {:induction false} SaveLeavesOthers(db: DB, config: int, d: ConfigDraft, c: int)
    requires ValidDB(db) && Savable(db, config, d) && c != config
    ensures SameRows(db, Saved(db, config, d), c)
    ensures Saved(db, config, d).inbounds == db.inbounds
  {
    hide Resolves, Flatten, NodeResolves, RowOf, MemberRows, MembersFit, RulesFit, MembersResolve, RuleBase, Increasing;
    var env, db' := EnvOf(db, config, d), Saved(db, config, d);
    Scope(d.rules, 0, None, RuleBase(db, config), env);
    MemberGroups(d.groups, |d.groups|, env.groupID, db.memberSeq);
    forall m | m in db.members && HasGroup(db.groups, m.group, c) ensures m in db'.members {
      GroupInOneConfig(db, m.group, c, config);
    }
    forall m | m in db'.members && HasGroup(db'.groups, m.group, c) ensures m in db.members {
      assert HasGroup(db.groups, m.group, c);
    }
  }

  /** An id belongs to one group, so to one config. */
  lemma {:induction false} GroupInOneConfig(db: DB, id: int, c: int, config: int)
    requires ValidDB(db) && HasGroup(db.groups, id, c) && c != config
    ensures id !in OwnGroups(db, config)
  {
    hide Increasing, References;
    if g :| g in db.groups && g.config == config && g.id == id {
      var h :| h in db.groups && h.id == id && h.config == c;
      Apart(db.groups, GroupsDiffer(), g, h);
    }
  }

  /** The groups of the saved config are the new ones. */
  lemma {:induction false} OwnGroupsAreNew(db: DB, config: int, d: ConfigDraft)
    requires Savable(db, config, d)
    ensures forall id :: id in OwnGroups(Saved(db, config, d), config) <==> id in EnvOf(db, config, d).groupID
  {
    hide Resolves, Flatten, MemberRows, MembersFit, RulesFit, MembersResolve, RuleBase;
    var rows := GroupRows(d.groups, config, db.groupSeq);
    var ids := EnvOf(db, config, d).groupID;
    forall i | 0 <= i < |ids| ensures ids[i] in OwnGroups(Saved(db, config, d), config) {
      assert rows[i] in rows && rows[i].id == ids[i];
    }
    forall g | g in Saved(db, config, d).groups && g.config == config ensures g.id in ids {
      assert g in rows;
      var i :| 0 <= i < |rows| && rows[i] == g;
      assert ids[i] == g.id;
    }
  }

  lemma {:induction false} MembersUntouched(db: DB, config: int, d: ConfigDraft)
    requires ValidDB(db) && Savable(db, config, d)
    ensures Filter(Saved(db, config, d).members, MemberOutside(OwnGroups(Saved(db, config, d), config)))
         == Filter(db.members, MemberOutside(OwnGroups(db, config)))
  {
    hide Resolves, Flatten, Filter, MemberRows, OwnGroups;
    var env := EnvOf(db, config, d);
    var added := MemberRows(d.groups, |d.groups|, env.groupID, db.memberSeq);
    OwnGroupsAreNew(db, config, d);
    MemberGroups(d.groups, |d.groups|, env.groupID, db.memberSeq);
    FilterReplaced(Filter(db.members, MemberOutside(OwnGroups(db, config))), added,
                   MemberOutside(OwnGroups(Saved(db, config, d), config)));
  }
}
