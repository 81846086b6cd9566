/** What the ordered queries must answer after a save: the answers are determined by the draft. */
module Answers {
  import opened Wrappers
  import opened Drafts
  import opened GroupGraph
  import opened Tables
  import opened RuleRows
  import opened Store
  import opened ConfigView
  import opened Reorder

  // ----- groups come back in draft order

  function GroupsByPosition(): (GroupRow, GroupRow) -> bool {
    (a: GroupRow, b: GroupRow) => a.position < b.position
  }

  lemma {:induction false} GroupRowsAre(rows: seq<GroupRow>, db: DB, config: int, d: ConfigDraft)
    requires Savable(db, config, d) && GroupAnswer(rows, Saved(db, config, d).groups, config)
    ensures forall x :: x in rows ==> x in GroupRows(d.groups, config, db.groupSeq)
    ensures forall x :: x in GroupRows(d.groups, config, db.groupSeq) ==> x in rows
  {
    hide Flatten, Resolves, MemberRows;
  }

  lemma {:induction false} GroupsInOrder(rows: seq<GroupRow>, groups: seq<GroupDraft>, config: int, last: nat)
    requires forall x :: x in rows ==> x in GroupRows(groups, config, last)
    requires forall x :: x in GroupRows(groups, config, last) ==> x in rows
    requires forall i, j :: 0 <= i < j < |rows| ==> rows[i].id != rows[j].id && rows[i].position <= rows[j].position
    ensures rows == GroupRows(groups, config, last)
  {
    var added := GroupRows(groups, config, last);
    forall i, j | 0 <= i < j < |rows| ensures rows[i].position < rows[j].position {
      assert rows[i] in rows && rows[j] in rows;
      var a :| 0 <= a < |added| && added[a] == rows[i];
      var b :| 0 <= b < |added| && added[b] == rows[j];
      assert added[a].position == a && added[b].position == b;
    }
    SameIncreasing(rows, added, GroupsByPosition());
  }

  lemma {:induction false} GroupsReadBack(rows: seq<GroupRow>, db: DB, config: int, d: ConfigDraft)
    requires Savable(db, config, d) && GroupAnswer(rows, Saved(db, config, d).groups, config)
    ensures rows == GroupRows(d.groups, config, db.groupSeq)
  {
    hide Saved, Savable, GroupRows;
    GroupRowsAre(rows, db, config, d);
    GroupsInOrder(rows, d.groups, config, db.groupSeq);
  }

  // ----- the ids that the save reads back

  /** The save asks for the ids of the groups it inserted, in position order: there is one answer. */
  lemma {:induction false} GroupIDsReadBack(rows: seq<GroupRow>, db: DB, config: int, d: ConfigDraft)
    requires GroupAnswer(rows, Filter(db.groups, GroupOutside(config)) + GroupRows(d.groups, config, db.groupSeq),
                         config)
    ensures |rows| == |d.groups| && forall i :: 0 <= i < |rows| ==> rows[i].id == EnvOf(db, config, d).groupID[i]
  {
    GroupsInOrder(rows, d.groups, config, db.groupSeq);
  }

  ghost predicate ProviderIDAnswer(rows: seq<ProviderRow>, table: seq<ProviderRow>, config: int) {
    && (forall x :: x in rows ==> x in table && x.config == config)
    && (forall x :: x in table && x.config == config ==> x in rows)
    && (forall i, j :: 0 <= i < j < |rows| ==> rows[i].id < rows[j].id)
  }

  /** So it does for the providers, in id order, which is draft order. */
  lemma {:induction false} ProviderIDsReadBack(rows: seq<ProviderRow>, db: DB, config: int, d: ConfigDraft)
    requires var added := ProviderRows(d.providers, config, db.providerSeq);
             ProviderIDAnswer(rows, Filter(db.providers, ProviderOutside(config)) + added, config)
    ensures |rows| == |d.providers| && forall i :: 0 <= i < |rows| ==> rows[i].id == EnvOf(db, config, d).providerID[i]
  {
    SameIncreasing(rows, ProviderRows(d.providers, config, db.providerSeq),
                   (a: ProviderRow, b: ProviderRow) => a.id < b.id);
  }

  // ----- the members of each group come back in draft order

  function MembersByPosition(): (MemberRow, MemberRow) -> bool {
    (a: MemberRow, b: MemberRow) => a.position < b.position
  }

  lemma {:induction false} OneGroup(members: seq<RefDraft>, group: int, groupID: seq<int>, last: nat)
    requires forall j :: 0 <= j < |members| ==> RefResolves(members[j], groupID)
    ensures forall x :: x in MembersOf(members, group, groupID, last) ==> x.group == group
  {
  }

  /** The rows of group i among the rows of the first n groups. */
  lemma {:induction false} MembersOfGroup(groups: seq<GroupDraft>, n: nat, groupID: seq<int>, last: nat, i: nat)
    returns (from: nat)
    requires i < |groups| && n <= |groups| <= |groupID| && MembersResolve(groups, groupID)
    requires forall a, b :: 0 <= a < b < |groupID| ==> groupID[a] != groupID[b]
    ensures Filter(MemberRows(groups, n, groupID, last), InGroup(groupID[i])) ==
            if i < n then MembersOf(groups[i].members, groupID[i], groupID, from) else []
  {
    hide MembersOf, Filter, RefResolves;
    from := 0;
    if n > 0 {
      OneGroup(groups[n - 1].members, groupID[n - 1], groupID, last + |MemberRows(groups, n - 1, groupID, last)|);
      var before := MemberRows(groups, n - 1, groupID, last);
      var here := MembersOf(groups[n - 1].members, groupID[n - 1], groupID, last + |before|);
      from := MembersOfGroup(groups, n - 1, groupID, last, i);
      FilterConcat(before, here, InGroup(groupID[i]));
      if i == n - 1 {
        FilterAll(here, InGroup(groupID[i]));
        from := last + |before|;
      } else {
        FilterNone(here, InGroup(groupID[i]));
      }
    } else {
      FilterNone([], InGroup(groupID[i]));
    }
  }

  lemma {:induction false} MembersReadBack(rows: seq<MemberRow>, db: DB, config: int, d: ConfigDraft, i: nat)
    returns (from: nat)
    requires ValidDB(db) && Savable(db, config, d) && MemberAnswer(rows, Saved(db, config, d).members) && i < |d.groups|
    ensures var groupID := EnvOf(db, config, d).groupID;
            Filter(rows, InGroup(groupID[i])) == MembersOf(d.groups[i].members, groupID[i], groupID, from)
  {
    hide Flatten, Resolves, MemberRows, Filter, Saved, MembersOf, RefResolves;
    var groupID := EnvOf(db, config, d).groupID;
    from := MembersOfGroup(d.groups, |d.groups|, groupID, db.memberSeq, i);
    var own := MembersOf(d.groups[i].members, groupID[i], groupID, from);
    MembersStandOut(rows, db, config, d, i, own);
    MembersInOrder(rows, d.groups[i].members, groupID[i], groupID, from);
  }

  lemma {:induction false} MembersAreNumbered(members: seq<RefDraft>, group: int, groupID: seq<int>, from: nat)
    requires forall j :: 0 <= j < |members| ==> RefResolves(members[j], groupID)
    ensures forall k :: 0 <= k < |members| ==> MembersOf(members, group, groupID, from)[k].position == k
  {
  }

  lemma {:induction false} MembersInOrder(rows: seq<MemberRow>, members: seq<RefDraft>, group: int, groupID: seq<int>,
                                          from: nat)
    requires forall j :: 0 <= j < |members| ==> RefResolves(members[j], groupID)
    requires forall x :: x in rows && x.group == group ==> x in MembersOf(members, group, groupID, from)
    requires forall x :: x in MembersOf(members, group, groupID, from) ==> x in rows && x.group == group
    requires forall i, j :: 0 <= i < j < |rows| ==>
               rows[i].id != rows[j].id && (rows[i].group == rows[j].group ==> rows[i].position <= rows[j].position)
    ensures Filter(rows, InGroup(group)) == MembersOf(members, group, groupID, from)
  {
    hide Filter, MembersOf, RefResolves;
    var own := MembersOf(members, group, groupID, from);
    MembersAreNumbered(members, group, groupID, from);
    forall a, b | 0 <= a < b < |rows| && rows[a].group == group && rows[b].group == group
      ensures rows[a].position < rows[b].position
    {
      assert rows[a] in rows && rows[b] in rows;
      var a' :| 0 <= a' < |own| && own[a'] == rows[a];
      var b' :| 0 <= b' < |own| && own[b'] == rows[b];
      assert own[a'].position == a' && own[b'].position == b';
    }
    FilterIncreasing(rows, InGroup(group), MembersByPosition());
    SameIncreasing(Filter(rows, InGroup(group)), own, MembersByPosition());
  }

  /** Only the save's own rows carry the new group's id. */
  lemma {:induction false} MembersStandOut(rows: seq<MemberRow>, db: DB, config: int, d: ConfigDraft, i: nat,
                                           own: seq<MemberRow>)
    requires ValidDB(db) && Savable(db, config, d) && MemberAnswer(rows, Saved(db, config, d).members) && i < |d.groups|
    requires own ==
             Filter(MemberRows(d.groups, |d.groups|, EnvOf(db, config, d).groupID, db.memberSeq),
                    InGroup(EnvOf(db, config, d).groupID[i]))
    ensures forall x :: x in rows && x.group == EnvOf(db, config, d).groupID[i] ==> x in own
    ensures forall x :: x in own ==> x in rows && x.group == EnvOf(db, config, d).groupID[i]
  {
    hide Flatten, Resolves, MemberRows;
  }

  // ----- providers come back in name order

  lemma {:induction false} NameLessIsAsymmetric(a: string, b: string)
    ensures NameLess(a, b) ==> !NameLess(b, a)
  {
    if a == "" || b == "" {
    } else {
      NameLessIsAsymmetric(a[1..], b[1..]);
    }
  }

  lemma {:induction false} NameLessIsTotal(a: string, b: string)
    ensures a == b || NameLess(a, b) || NameLess(b, a)
  {
    if a == "" || b == "" {
    } else {
      NameLessIsTotal(a[1..], b[1..]);
      assert a == [a[0]] + a[1..] && b == [b[0]] + b[1..];
    }
  }

  ghost predicate InNameOrder(providers: seq<Provider>) {
    forall i, j :: 0 <= i < j < |providers| ==> NameLess(providers[i].name, providers[j].name)
  }

  /** back takes a draft index to the place in the answer, and forth back to the draft. */
  lemma {:induction false} ProvidersReadBack(rows: seq<ProviderRow>, db: DB, config: int, d: ConfigDraft)
    returns (back: seq<nat>, forth: seq<nat>)
    requires Savable(db, config, d) && ProviderAnswer(rows, Saved(db, config, d).providers, config)
    ensures Inverse(back, forth) && |back| == |d.providers| == |rows|
    ensures forall i :: 0 <= i < |back| ==>
              rows[back[i]] == ProviderRow(EnvOf(db, config, d).providerID[i], config, d.providers[i])
    ensures forall i, j :: 0 <= i < j < |rows| ==> NameLess(rows[i].provider.name, rows[j].provider.name)
  {
    hide Saved, Savable, ProviderRows;
    ProviderRowsAre(rows, db, config, d);
    NamesDiffer(db, config, d);
    back, forth := Matching(rows, ProviderRows(d.providers, config, db.providerSeq));
    forall i, j | 0 <= i < j < |rows| ensures NameLess(rows[i].provider.name, rows[j].provider.name) {
      var a, b := forth[i], forth[j];
      assert rows[i] == ProviderRows(d.providers, config, db.providerSeq)[a];
      assert rows[j] == ProviderRows(d.providers, config, db.providerSeq)[b];
      assert a != b;
      NameLessIsTotal(rows[i].provider.name, rows[j].provider.name);
    }
  }

  lemma {:induction false} NamesDiffer(db: DB, config: int, d: ConfigDraft)
    requires Savable(db, config, d)
    ensures var added := ProviderRows(d.providers, config, db.providerSeq);
            && (forall i :: 0 <= i < |added| ==>
                  added[i] == ProviderRow(EnvOf(db, config, d).providerID[i], config, d.providers[i]))
            && (forall i, j :: 0 <= i < |added| && 0 <= j < |added| && i != j ==>
                  added[i] != added[j] && added[i].provider.name != added[j].provider.name)
  {
    hide Flatten, Resolves, MemberRows;
  }

  /** Two lists without repetitions and with the same elements are matched by a pair of inverse index lists. */
  lemma {:induction false} Matching<T(!new)>(a: seq<T>, b: seq<T>) returns (back: seq<nat>, forth: seq<nat>)
    requires forall i, j :: 0 <= i < j < |a| ==> a[i] != a[j]
    requires forall i, j :: 0 <= i < j < |b| ==> b[i] != b[j]
    requires (forall x :: x in a ==> x in b) && forall x :: x in b ==> x in a
    ensures Inverse(back, forth) && |back| == |b| == |a|
    ensures forall i :: 0 <= i < |b| ==> a[back[i]] == b[i]
    ensures forall k :: 0 <= k < |a| ==> b[forth[k]] == a[k]
  {
    back := Places(a, b);
    forth := Places(b, a);
    Pigeonhole(back, |a|);
    Pigeonhole(forth, |b|);
  }

  lemma {:induction false} Places<T(!new)>(a: seq<T>, b: seq<T>) returns (places: seq<nat>)
    requires forall i, j :: 0 <= i < j < |b| ==> b[i] != b[j]
    requires forall x :: x in b ==> x in a
    ensures |places| == |b| && Distinct(places)
    ensures forall i :: 0 <= i < |b| ==> places[i] < |a| && a[places[i]] == b[i]
  {
    if b == [] {
      places := [];
    } else {
      var last := |b| - 1;
      assert forall x :: x in b[..last] ==> x in b;
      places := Places(a, b[..last]);
      assert b[last] in b;
      var k :| 0 <= k < |a| && a[k] == b[last];
      places := places + [k];
    }
  }

  lemma {:induction false} ProviderRowsAre(rows: seq<ProviderRow>, db: DB, config: int, d: ConfigDraft)
    requires Savable(db, config, d) && ProviderAnswer(rows, Saved(db, config, d).providers, config)
    ensures forall x :: x in rows ==> x in ProviderRows(d.providers, config, db.providerSeq)
    ensures forall x :: x in ProviderRows(d.providers, config, db.providerSeq) ==> x in rows
  {
    hide Flatten, Resolves, MemberRows;
  }

  // ----- rules are linked back

  lemma {:induction false} RulesHeld(db: DB, config: int, d: ConfigDraft)
    requires Savable(db, config, d)
    ensures Holds(Saved(db, config, d).rules, Flatten(d.rules, 0, None, RuleBase(db, config), EnvOf(db, config, d)),
                  config)
  {
    hide MemberRows, Flatten;
    Scope(d.rules, 0, None, RuleBase(db, config), EnvOf(db, config, d));
  }

  lemma {:induction false} RulesReadBack(rows: seq<RuleRow>, db: DB, config: int, d: ConfigDraft)
    requires Savable(db, config, d) && RuleAnswer(rows, Saved(db, config, d).rules, config)
    ensures Readable(rows) && Linked(rows) == Stored(d.rules, 0, RuleBase(db, config), EnvOf(db, config, d))
  {
    hide MemberRows, Flatten, Stored, Linked, Resolves, Readable;
    RulesHeld(db, config, d);
    ReadBack(rows, Saved(db, config, d).rules, d.rules, RuleBase(db, config), EnvOf(db, config, d));
  }

  // ----- the queries always have an answer

  lemma {:induction false} NameLessIsTransitive(a: string, b: string, c: string)
    ensures !NameLess(b, a) && !NameLess(c, b) ==> !NameLess(c, a)
  {
    if a == "" || b == "" || c == "" {
    } else {
      NameLessIsTransitive(a[1..], b[1..], c[1..]);
    }
  }

  function GroupsLeq(): (GroupRow, GroupRow) -> bool { (a: GroupRow, b: GroupRow) => a.position <= b.position }

  function MembersLeq(): (MemberRow, MemberRow) -> bool {
    (a: MemberRow, b: MemberRow) => a.group < b.group || (a.group == b.group && a.position <= b.position)
  }

  function ProvidersLeq(): (ProviderRow, ProviderRow) -> bool {
    (a: ProviderRow, b: ProviderRow) => !NameLess(b.provider.name, a.provider.name)
  }

  ghost function RulesLeq(): (RuleRow, RuleRow) -> bool { (a: RuleRow, b: RuleRow) => Before(a, b) }

  lemma {:induction false} QueryOrders()
    ensures TotalPreorder(GroupsLeq()) && TotalPreorder(MembersLeq()) && TotalPreorder(ProvidersLeq())
    ensures TotalPreorder(RulesLeq())
  {
    forall a: ProviderRow, b: ProviderRow ensures ProvidersLeq()(a, b) || ProvidersLeq()(b, a) {
      NameLessIsAsymmetric(a.provider.name, b.provider.name);
    }
    forall a: ProviderRow, b: ProviderRow, c: ProviderRow
      ensures ProvidersLeq()(a, b) && ProvidersLeq()(b, c) ==> ProvidersLeq()(a, c)
    {
      NameLessIsTransitive(a.provider.name, b.provider.name, c.provider.name);
    }
  }

  lemma {:induction false} Selected<T(!new)>(table: seq<T>, keep: T -> bool, leq: (T, T) -> bool,
                                             differ: (T, T) -> bool)
    returns (answer: seq<T>)
    requires TotalPreorder(leq) && Symmetric(differ) && Increasing(table, differ)
    ensures Ordered(answer, Filter(table, keep), leq, differ)
  {
    FilterIncreasing(table, keep, differ);
    answer := CanBeOrdered(Filter(table, keep), leq, differ);
  }

  /** Every valid database can answer the four queries of a config. */
  lemma {:induction false} QueriesHaveAnswers(db: DB, config: int)
    returns (groups: seq<GroupRow>, members: seq<MemberRow>, providers: seq<ProviderRow>, rules: seq<RuleRow>)
    requires ValidDB(db)
    ensures GroupAnswer(groups, db.groups, config) && MemberAnswer(members, db.members)
    ensures ProviderAnswer(providers, db.providers, config) && RuleAnswer(rules, db.rules, config)
  {
    hide Increasing, GroupAnswer, MemberAnswer, ProviderAnswer, RuleAnswer, References;
    groups := AnswerGroups(db.groups, config);
    members := AnswerMembers(db.members);
    providers := AnswerProviders(db.providers, config);
    rules := AnswerRules(db.rules, config);
  }

  lemma {:induction false} AnswerGroups(table: seq<GroupRow>, config: int) returns (rows: seq<GroupRow>)
    requires Increasing(table, GroupsDiffer())
    ensures GroupAnswer(rows, table, config)
  {
    hide TotalPreorder;
    QueryOrders();
    rows := Selected(table, (x: GroupRow) => x.config == config, GroupsLeq(), GroupsDiffer());
    forall i, j | 0 <= i < j < |rows| ensures rows[i].id != rows[j].id && rows[i].position <= rows[j].position {
      assert GroupsDiffer()(rows[i], rows[j]) && GroupsLeq()(rows[i], rows[j]);
    }
  }

  lemma {:induction false} AnswerMembers(table: seq<MemberRow>) returns (rows: seq<MemberRow>)
    requires Increasing(table, MembersDiffer())
    ensures MemberAnswer(rows, table)
  {
    hide TotalPreorder;
    QueryOrders();
    rows := CanBeOrdered(table, MembersLeq(), MembersDiffer());
    forall i, j | 0 <= i < j < |rows|
      ensures rows[i].id != rows[j].id
      ensures || rows[i].group < rows[j].group
              || (rows[i].group == rows[j].group && rows[i].position <= rows[j].position)
    {
      assert MembersDiffer()(rows[i], rows[j]) && MembersLeq()(rows[i], rows[j]);
    }
  }

  lemma {:induction false} AnswerProviders(table: seq<ProviderRow>, config: int) returns (rows: seq<ProviderRow>)
    requires Increasing(table, ProvidersDiffer())
    ensures ProviderAnswer(rows, table, config)
  {
    hide TotalPreorder, NameLess;
    QueryOrders();
    rows := Selected(table, (x: ProviderRow) => x.config == config, ProvidersLeq(), ProvidersDiffer());
    forall i, j | 0 <= i < j < |rows|
      ensures rows[i].id != rows[j].id && !NameLess(rows[j].provider.name, rows[i].provider.name)
    {
      assert ProvidersDiffer()(rows[i], rows[j]) && ProvidersLeq()(rows[i], rows[j]);
    }
  }

  lemma {:induction false} AnswerRules(table: seq<RuleRow>, config: int) returns (rows: seq<RuleRow>)
    requires Increasing(table, RulesApart())
    ensures RuleAnswer(rows, table, config)
  {
    hide TotalPreorder, Before;
    QueryOrders();
    rows := Selected(table, (x: RuleRow) => x.config == config, RulesLeq(), RulesApart());
    forall i, j | 0 <= i < j < |rows| ensures rows[i].id != rows[j].id && Before(rows[i], rows[j]) {
      assert RulesApart()(rows[i], rows[j]) && RulesLeq()(rows[i], rows[j]);
    }
  }
}
