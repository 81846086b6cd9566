/**
 What a config shows depends on its own rows only. Positions and names are unique among the rows
 that a query orders, so any two answers to the same rows show the same, and saving one config
 changes nothing that another one shows.
 */
module Isolation {
  import opened Wrappers
  import opened Drafts
  import opened Decode
  import opened Tables
  import opened RuleRows
  import opened Store
  import opened ConfigView
  import opened Answers
  import opened RoundTrip

  // ----- one order for each query

  lemma {:induction false} SameGroupAnswers(rows: seq<GroupRow>, table: seq<GroupRow>, rows': seq<GroupRow>,
                                            table': seq<GroupRow>, c: int)
    requires Increasing(table, GroupsDiffer()) && Increasing(table', GroupsDiffer())
    requires GroupAnswer(rows, table, c) && GroupAnswer(rows', table', c)
    requires forall g :: g in table && g.config == c ==> g in table'
    requires forall g :: g in table' && g.config == c ==> g in table
    ensures rows == rows'
  {
    hide Increasing;
    GroupsStrict(rows, table, c);
    GroupsStrict(rows', table', c);
    PositionsAsymmetric();
    SameIncreasing(rows, rows', GroupsByPosition());
  }

  lemma {:induction false} PositionsAsymmetric()
    ensures Asymmetric(GroupsByPosition()) && Asymmetric(MembersByPosition())
  {
  }

  lemma {:induction false} GroupsStrict(rows: seq<GroupRow>, table: seq<GroupRow>, c: int)
    requires Increasing(table, GroupsDiffer()) && GroupAnswer(rows, table, c)
    ensures Increasing(rows, GroupsByPosition())
  {
    forall i, j | 0 <= i < j < |rows| ensures rows[i].position < rows[j].position {
      assert rows[i] in rows && rows[j] in rows;
      Apart(table, GroupsDiffer(), rows[i], rows[j]);
    }
  }

  function ProvidersByName(): (ProviderRow, ProviderRow) -> bool {
    (a: ProviderRow, b: ProviderRow) => NameLess(a.provider.name, b.provider.name)
  }

  lemma {:induction false} ProvidersStrict(rows: seq<ProviderRow>, table: seq<ProviderRow>, c: int)
    requires Increasing(table, ProvidersDiffer()) && ProviderAnswer(rows, table, c)
    ensures Increasing(rows, ProvidersByName())
  {
    hide NameLess;
    forall i, j | 0 <= i < j < |rows| ensures NameLess(rows[i].provider.name, rows[j].provider.name) {
      assert rows[i] in rows && rows[j] in rows;
      Apart(table, ProvidersDiffer(), rows[i], rows[j]);
      NameLessIsTotal(rows[i].provider.name, rows[j].provider.name);
    }
  }

  lemma {:induction false} SameProviderAnswers(rows: seq<ProviderRow>, table: seq<ProviderRow>, rows': seq<ProviderRow>,
                                               table': seq<ProviderRow>, c: int)
    requires Increasing(table, ProvidersDiffer()) && Increasing(table', ProvidersDiffer())
    requires ProviderAnswer(rows, table, c) && ProviderAnswer(rows', table', c)
    requires forall p :: p in table && p.config == c ==> p in table'
    requires forall p :: p in table' && p.config == c ==> p in table
    ensures rows == rows'
  {
    hide Increasing, NameLess;
    ProvidersStrict(rows, table, c);
    ProvidersStrict(rows', table', c);
    forall a: ProviderRow, b: ProviderRow ensures ProvidersByName()(a, b) ==> !ProvidersByName()(b, a) {
      NameLessIsAsymmetric(a.provider.name, b.provider.name);
    }
    SameIncreasing(rows, rows', ProvidersByName());
  }

  /** The order of the rule query, without ties. */
  function RulesInOrder(): (RuleRow, RuleRow) -> bool {
    (a: RuleRow, b: RuleRow) =>
      match (a.parent, b.parent)
      case (None, None) => a.position < b.position
      case (None, Some(_)) => true
      case (Some(_), None) => false
      case (Some(p), Some(q)) => p < q || (p == q && a.position < b.position)
  }

  lemma {:induction false} RulesStrict(rows: seq<RuleRow>, table: seq<RuleRow>, c: int)
    requires Increasing(table, RulesApart()) && RuleAnswer(rows, table, c)
    ensures Increasing(rows, RulesInOrder())
  {
    forall i, j | 0 <= i < j < |rows| ensures RulesInOrder()(rows[i], rows[j]) {
      assert rows[i] in rows && rows[j] in rows;
      assert Before(rows[i], rows[j]);
      Apart(table, RulesApart(), rows[i], rows[j]);
    }
  }

  lemma {:induction false} SameRuleAnswers(rows: seq<RuleRow>, table: seq<RuleRow>, rows': seq<RuleRow>,
                                           table': seq<RuleRow>, c: int)
    requires Increasing(table, RulesApart()) && Increasing(table', RulesApart())
    requires RuleAnswer(rows, table, c) && RuleAnswer(rows', table', c)
    requires forall x :: x in table && x.config == c ==> x in table'
    requires forall x :: x in table' && x.config == c ==> x in table
    ensures rows == rows'
  {
    hide Increasing;
    RulesStrict(rows, table, c);
    RulesStrict(rows', table', c);
    RulesAsymmetric();
    SameIncreasing(rows, rows', RulesInOrder());
  }

  lemma {:induction false} RulesAsymmetric()
    ensures Asymmetric(RulesInOrder())
  {
  }

  /** The member query is about all configs; the members of one group stand in one order in it. */
  lemma {:induction false} MembersStrict(rows: seq<MemberRow>, table: seq<MemberRow>, group: int)
    requires Increasing(table, MembersDiffer()) && MemberAnswer(rows, table)
    ensures Increasing(Filter(rows, InGroup(group)), MembersByPosition())
  {
    forall i, j | 0 <= i < j < |rows| && InGroup(group)(rows[i]) && InGroup(group)(rows[j])
      ensures MembersByPosition()(rows[i], rows[j])
    {
      assert rows[i] in rows && rows[j] in rows;
      Apart(table, MembersDiffer(), rows[i], rows[j]);
    }
    FilterIncreasing(rows, InGroup(group), MembersByPosition());
  }

  lemma {:induction false} SameMemberAnswers(rows: seq<MemberRow>, table: seq<MemberRow>, rows': seq<MemberRow>,
                                             table': seq<MemberRow>, group: int)
    requires Increasing(table, MembersDiffer()) && Increasing(table', MembersDiffer())
    requires MemberAnswer(rows, table) && MemberAnswer(rows', table')
    requires forall m :: m in table && m.group == group ==> m in table'
    requires forall m :: m in table' && m.group == group ==> m in table
    ensures Filter(rows, InGroup(group)) == Filter(rows', InGroup(group))
  {
    hide Increasing, Filter;
    MembersStrict(rows, table, group);
    MembersStrict(rows', table', group);
    PositionsAsymmetric();
    SameIncreasing(Filter(rows, InGroup(group)), Filter(rows', InGroup(group)), MembersByPosition());
  }

  // ----- what is shown

  /** Databases with the same rows for a config show it the same, however they answer. */
  lemma {:induction false} SameRowsShowTheSame(db: DB, db': DB, c: int, a: Answer, a': Answer)
    requires ValidDB(db) && ValidDB(db') && SameRows(db, db', c) && Possible(a, db, c) && Possible(a', db', c)
    ensures Readable(a.rules) && Readable(a'.rules)
    ensures ShownFrom(a, if c in db.baseYAML then db.baseYAML[c] else "",
                      if c in db.profiles then db.profiles[c] else Profile("", "", 0)) ==
            ShownFrom(a', if c in db'.baseYAML then db'.baseYAML[c] else "",
                      if c in db'.profiles then db'.profiles[c] else Profile("", "", 0))
  {
    hide Increasing, References, Shown, Linked, MemberAnswer, ProviderAnswer;
    SameGroupAnswers(a.groups, db.groups, a'.groups, db'.groups, c);
    SameProviderAnswers(a.providers, db.providers, a'.providers, db'.providers, c);
    SameRuleAnswers(a.rules, db.rules, a'.rules, db'.rules, c);
    AnswerIsReadable(a.rules, db.rules, c);
    forall i | 0 <= i < |a.groups| ensures GroupOf(a.groups[i], a.members) == GroupOf(a'.groups[i], a'.members) {
      assert a.groups[i] in a.groups && a'.groups[i] in a'.groups;
      assert HasGroup(db.groups, a.groups[i].id, c) && HasGroup(db'.groups, a'.groups[i].id, c);
      SameMemberAnswers(a.members, db.members, a'.members, db'.members, a.groups[i].id);
    }
    assert seq(|a.groups|, i requires 0 <= i < |a.groups| => GroupOf(a.groups[i], a.members))
        == seq(|a'.groups|, i requires 0 <= i < |a'.groups| => GroupOf(a'.groups[i], a'.members));
  }

  lemma {:induction false} AnswerIsReadable(rows: seq<RuleRow>, table: seq<RuleRow>, c: int)
    requires RuleAnswer(rows, table, c)
    ensures Readable(rows)
  {
  }

  /** What any other config shows is the same before and after a save. */
  lemma {:induction false} OthersShowTheSame(db: DB, config: int, d: ConfigDraft, c: int, a: Answer, a': Answer)
    requires ValidDB(db) && Savable(db, config, d) && c != config
    requires Possible(a, db, c) && Possible(a', Saved(db, config, d), c)
    ensures Readable(a.rules) && Readable(a'.rules)
    ensures var db' := Saved(db, config, d);
            ShownFrom(a, if c in db.baseYAML then db.baseYAML[c] else "",
                      if c in db.profiles then db.profiles[c] else Profile("", "", 0)) ==
            ShownFrom(a', if c in db'.baseYAML then db'.baseYAML[c] else "",
                      if c in db'.profiles then db'.profiles[c] else Profile("", "", 0))
  {
    hide ValidDB, Savable, Saved, SameRows, Possible, ShownFrom, Readable;
    SaveKeepsValid(db, config, d);
    SaveLeavesOthers(db, config, d, c);
    SameRowsShowTheSame(db, Saved(db, config, d), c, a, a');
  }
}
