/**
 Rule trees in the rule table. Saving walks a tree and gives every node a row, with ids counted
 up from the largest id in the table and the parent's id in each child's row; reading takes the
 rows of a config ordered by parent and position and links them back into trees.
 */
module RuleRows {
  import opened Wrappers
  import opened RuleTypes
  import opened Drafts
  import opened Tables

  // ----- domain types, with real ids

  datatype PolicyRef = PolicyRef(kind: string, inboundID: Option<int>, groupID: Option<int>)

  datatype RoutingRule = RoutingRule(
    id: int,
    position: nat,
    typ: string,
    value: Option<string>,
    providerID: Option<int>,
    noResolve: Option<bool>,
    target: Option<PolicyRef>,
    children: seq<RoutingRule>)

  // ----- rows

  datatype RuleRow = RuleRow(
    id: int,
    config: int,
    parent: Option<int>,
    position: nat,
    typ: string,
    value: Option<string>,
    provider: Option<int>,
    noResolve: bool,
    kind: Option<string>,
    inbound: Option<int>,
    group: Option<int>)

  /** The CHECK constraints: a target at the top and only there, and the id column of its kind. */
  predicate PassesChecks(row: RuleRow) {
    && (row.parent.None? <==> row.kind.Some?)
    && (row.kind.Some? ==>
          && (row.kind.value == POLICY_INBOUND <==> row.inbound.Some?)
          && (row.kind.value == POLICY_GROUP <==> row.group.Some?))
  }

  /** The config that is saved, and the ids its groups and providers were given, in draft order. */
  datatype Env = Env(config: int, groupID: seq<int>, providerID: seq<int>)

  /** Whether the columns of a reference can be filled in. */
  predicate RefResolves(m: RefDraft, groupID: seq<int>) {
    && (m.kind == POLICY_INBOUND ==> m.inboundID.Some?)
    && (m.kind == POLICY_GROUP ==> m.groupIdx.Some? && 0 <= m.groupIdx.value < |groupID|)
  }

  function InboundColumn(m: RefDraft): Option<int> {
    if m.kind == POLICY_INBOUND then m.inboundID else None
  }

  function GroupColumn(m: RefDraft, groupID: seq<int>): Option<int>
    requires RefResolves(m, groupID)
  {
    if m.kind == POLICY_GROUP then Some(groupID[m.groupIdx.value]) else None
  }

  predicate NodeResolves(r: RuleDraft, env: Env) {
    && (r.target.Some? ==> RefResolves(r.target.value, env.groupID))
    && (r.providerIdx.Some? ==> 0 <= r.providerIdx.value < |env.providerID|)
  }

  function RowOf(r: RuleDraft, id: int, parent: Option<int>, position: nat, env: Env): RuleRow
    requires NodeResolves(r, env)
  {
    RuleRow(id, env.config, parent, position, r.typ, r.value,
            if r.providerIdx.Some? then Some(env.providerID[r.providerIdx.value]) else None,
            r.noResolve == Some(true),
            if r.target.Some? then Some(r.target.value.kind) else None,
            if r.target.Some? then InboundColumn(r.target.value) else None,
            if r.target.Some? then GroupColumn(r.target.value, env.groupID) else None)
  }

  /** The columns of a row: own fields as they are, indices as ids, only a true no-resolve as set. */
  lemma {:induction false} RowMeans(r: RuleDraft, id: int, parent: Option<int>, position: nat, env: Env)
    requires NodeResolves(r, env)
    ensures var row := RowOf(r, id, parent, position, env);
            && row.id == id && row.config == env.config && row.parent == parent && row.position == position
            && row.typ == r.typ && row.value == r.value && (row.noResolve <==> r.noResolve == Some(true))
            && (r.providerIdx.None? ==> row.provider == None)
            && (r.providerIdx.Some? ==> row.provider == Some(env.providerID[r.providerIdx.value]))
            && (r.target.None? ==> row.kind == None && row.inbound == None && row.group == None)
            && (r.target.Some? ==>
                  && row.kind == Some(r.target.value.kind)
                  && row.inbound == (if r.target.value.kind == "inbound" then r.target.value.inboundID else None)
                  && (r.target.value.kind != "group" ==> row.group == None)
                  && (r.target.value.kind == "group" ==> row.group == Some(env.groupID[r.target.value.groupIdx.value])))
  {
  }

  /** The sub-rules that are stored: those of a logical rule. */
  function Below(r: RuleDraft): seq<RuleDraft> {
    if IsLogical(r.typ) then r.children else []
  }

  /** All nodes of a forest, stored or not: what the recursions below count down. */
  ghost function Weight(rs: seq<RuleDraft>): nat
    decreases rs
  {
    if rs == [] then 0 else 1 + Weight(rs[0].children) + Weight(rs[1..])
  }

  predicate Resolves(rs: seq<RuleDraft>, env: Env)
    decreases Weight(rs)
  {
    rs == [] || (NodeResolves(rs[0], env) && Resolves(Below(rs[0]), env) && Resolves(rs[1..], env))
  }

  function Size(rs: seq<RuleDraft>): nat
    decreases Weight(rs)
  {
    if rs == [] then 0 else 1 + Size(Below(rs[0])) + Size(rs[1..])
  }

  /** The rows of a list of siblings and everything below them, with ids counted up from next. */
  function Flatten(rs: seq<RuleDraft>, position: nat, parent: Option<int>, next: int, env: Env): (rows: seq<RuleRow>)
    requires Resolves(rs, env)
    ensures |rows| == Size(rs)
    decreases Weight(rs)
  {
    if rs == [] then []
    else
      var id := next + 1;
      [RowOf(rs[0], id, parent, position, env)]
      + Flatten(Below(rs[0]), 0, Some(id), id, env)
      + Flatten(rs[1..], position + 1, parent, id + Size(Below(rs[0])), env)
  }

  /** A walk over siblings: the first one's row, what is below it, and the rest. */
  lemma {:induction false} FlattenParts(rs: seq<RuleDraft>, position: nat, parent: Option<int>, next: int, env: Env)
    requires rs != [] && Resolves(rs, env)
    ensures Resolves(Below(rs[0]), env) && Resolves(rs[1..], env) && NodeResolves(rs[0], env)
    ensures Size(rs) == 1 + Size(Below(rs[0])) + Size(rs[1..])
    ensures Flatten(rs, position, parent, next, env) ==
            [RowOf(rs[0], next + 1, parent, position, env)]
            + Flatten(Below(rs[0]), 0, Some(next + 1), next + 1, env)
            + Flatten(rs[1..], position + 1, parent, next + 1 + Size(Below(rs[0])), env)
  {
    hide RowOf, NodeResolves;
  }

  lemma {:induction false} Assoc<T>(rows: seq<T>, a: seq<T>, b: seq<T>, c: seq<T>)
    ensures rows + (a + b + c) == rows + a + b + c
  {
  }

  lemma {:induction false} FlattenStep(rs: seq<RuleDraft>, position: nat, parent: Option<int>, next: int, env: Env,
                                       rows: seq<RuleRow>)
    requires rs != [] && Resolves(rs, env)
    ensures Resolves(Below(rs[0]), env) && Resolves(rs[1..], env) && NodeResolves(rs[0], env)
    ensures Size(rs) == 1 + Size(Below(rs[0])) + Size(rs[1..])
    ensures rows + Flatten(rs, position, parent, next, env) ==
            rows + [RowOf(rs[0], next + 1, parent, position, env)]
            + Flatten(Below(rs[0]), 0, Some(next + 1), next + 1, env)
            + Flatten(rs[1..], position + 1, parent, next + 1 + Size(Below(rs[0])), env)
  {
    hide RowOf, NodeResolves, Flatten, Resolves, Size;
    FlattenParts(rs, position, parent, next, env);
    Assoc(rows, [RowOf(rs[0], next + 1, parent, position, env)],
          Flatten(Below(rs[0]), 0, Some(next + 1), next + 1, env),
          Flatten(rs[1..], position + 1, parent, next + 1 + Size(Below(rs[0])), env));
  }

  /** What the walk over the draft appends to: the row list and the last id given out. */
  class RowBuilder {
    var rows: seq<RuleRow>
    var next: int

    constructor (base: int)
      ensures rows == [] && next == base
    {
      rows, next := [], base;
    }

    /** Appends the rows of rs; fails exactly when some stored reference does not resolve. */
    method Build(rs: seq<RuleDraft>, parent: Option<int>, env: Env) returns (ok: bool)
      modifies this
      ensures ok <==> Resolves(rs, env)
      ensures ok ==> rows == old(rows) + Flatten(rs, 0, parent, old(next), env) && next == old(next) + Size(rs)
      decreases Weight(rs), 1
    {
      ok := BuildFrom(rs, 0, parent, env);
    }

    /** The loop over siblings, from position pos on. */
    method BuildFrom(rs: seq<RuleDraft>, pos: nat, parent: Option<int>, env: Env) returns (ok: bool)
      modifies this
      ensures ok <==> Resolves(rs, env)
      ensures ok ==> rows == old(rows) + Flatten(rs, pos, parent, old(next), env) && next == old(next) + Size(rs)
      decreases Weight(rs), 0
    {
      hide RowOf, Flatten, Size;
      if rs == [] {
        EmptyForest(pos, parent, next, env);
        return true;
      }
      var r := rs[0];
      if r.target.Some? && !RefResolves(r.target.value, env.groupID) {
        return false;
      }
      if r.providerIdx.Some? && !(0 <= r.providerIdx.value < |env.providerID|) {
        return false;
      }
      next := next + 1;
      var id := next;
      rows := rows + [RowOf(r, id, parent, pos, env)];
      if IsLogical(r.typ) {
        ok := Build(r.children, Some(id), env);
        if !ok {
          return false;
        }
      } else {
        EmptyForest(0, Some(id), id, env);
      }
      ok := BuildFrom(rs[1..], pos + 1, parent, env);
      if ok {
        FlattenStep(rs, pos, parent, old(next), env, old(rows));
      }
    }
  }

  lemma {:induction false} EmptyForest(position: nat, parent: Option<int>, next: int, env: Env)
    ensures Flatten([], position, parent, next, env) == [] && Size([]) == 0
  {
  }

  // ----- reading

  function RefOf(row: RuleRow): Option<PolicyRef> {
    if row.kind.Some? then Some(PolicyRef(row.kind.value, row.inbound, row.group)) else None
  }

  /** A row as a rule without its sub-rules. */
  function RuleOf(row: RuleRow): RoutingRule {
    RoutingRule(row.id, row.position, row.typ, row.value, row.provider, if row.noResolve then Some(true) else None,
                RefOf(row), [])
  }

  function HasParent(parent: Option<int>): RuleRow -> bool {
    (row: RuleRow) => row.parent == parent
  }

  function ChildRows(rows: seq<RuleRow>, parent: Option<int>): (r: seq<RuleRow>) {
    Filter(rows, HasParent(parent))
  }

  /** ORDER BY parent_id, position: rows without a parent come first. */
  ghost predicate Before(a: RuleRow, b: RuleRow) {
    match (a.parent, b.parent)
    case (None, None) => a.position <= b.position
    case (None, Some(_)) => true
    case (Some(_), None) => false
    case (Some(p), Some(q)) => p < q || (p == q && a.position <= b.position)
  }

  /** rows answers the query for a config: each of its rows once, in the asked order. */
  ghost predicate RuleAnswer(rows: seq<RuleRow>, table: seq<RuleRow>, config: int) {
    && (forall x :: x in rows ==> x in table && x.config == config)
    && (forall x :: x in table && x.config == config ==> x in rows)
    && (forall i, j :: 0 <= i < j < |rows| ==> rows[i].id != rows[j].id && Before(rows[i], rows[j]))
  }

  function RulesDiffer(): (RuleRow, RuleRow) -> bool { (a: RuleRow, b: RuleRow) => a.id != b.id }

  /** Rows that can be linked: their ids are unique. */
  ghost predicate Readable(rows: seq<RuleRow>) { Increasing(rows, RulesDiffer()) }

  /** A row without a parent, a child of it, a child of that, and so on. */
  ghost predicate Lineage(rows: seq<RuleRow>, path: seq<RuleRow>) {
    forall k :: 0 <= k < |path| ==> path[k] in rows && path[k].parent == Under(path[..k])
  }

  /** The parent that the children of the last row of a lineage name. */
  ghost function Under(path: seq<RuleRow>): Option<int> {
    if path == [] then None else Some(path[|path| - 1].id)
  }

  /** No row occurs twice in a lineage, so following it down ends. */
  lemma {:induction false} LineageIsShort(rows: seq<RuleRow>, path: seq<RuleRow>)
    requires Readable(rows) && Lineage(rows, path)
    ensures |path| <= |rows|
  {
    forall i, j | 0 <= i < j < |path| ensures path[i] != path[j] {
      LineageDiffers(rows, path, i, j);
    }
    forall x | x in path ensures x in rows {
      var k :| 0 <= k < |path| && path[k] == x;
    }
    NoMoreThan(path, rows);
  }

  lemma {:induction false} LineageDiffers(rows: seq<RuleRow>, path: seq<RuleRow>, i: nat, j: nat)
    requires Readable(rows) && Lineage(rows, path) && i < j < |path|
    ensures path[i] != path[j]
  {
    assert path[j].parent == Some(path[j - 1].id);
    if i == 0 {
      assert path[0].parent == None;
    } else if path[i] == path[j] {
      assert path[i].parent == Some(path[i - 1].id);
      assert path[i - 1] in rows && path[j - 1] in rows;
      LineageDiffers(rows, path, i - 1, j - 1);
    }
  }

  lemma {:induction false} LineageGrows(rows: seq<RuleRow>, path: seq<RuleRow>, row: RuleRow)
    requires Readable(rows) && Lineage(rows, path) && row in rows && row.parent == Under(path)
    ensures Lineage(rows, path + [row]) && |path| < |rows| && Under(path + [row]) == Some(row.id)
  {
    var longer := path + [row];
    forall k | 0 <= k < |longer| ensures longer[k] in rows && longer[k].parent == Under(longer[..k]) {
      assert longer[..k] == path[..k];
      assert path[..|path|] == path;
    }
    LineageIsShort(rows, path + [row]);
  }

  /** The tree below the last row of a lineage. */
  ghost function Freeze(rows: seq<RuleRow>, path: seq<RuleRow>): RoutingRule
    requires Readable(rows) && Lineage(rows, path) && path != []
    decreases |rows| - |path|, 1, 0
  {
    var row := path[|path| - 1];
    RuleOf(row).(children := FreezeAll(rows, ChildRows(rows, Some(row.id)), path))
  }

  /** The trees below the siblings that follow a lineage. */
  ghost function FreezeAll(rows: seq<RuleRow>, siblings: seq<RuleRow>, path: seq<RuleRow>): seq<RoutingRule>
    requires Readable(rows) && Lineage(rows, path) && forall x :: x in siblings ==> x in rows && x.parent == Under(path)
    decreases |rows| - |path|, 0, |siblings|
  {
    if siblings == [] then []
    else
      LineageGrows(rows, path, siblings[0]);
      [Freeze(rows, path + [siblings[0]])] + FreezeAll(rows, siblings[1..], path)
  }

  // ----- reading back what was written

  /** The rows of the siblings themselves. */
  ghost function Tops(rs: seq<RuleDraft>, position: nat, parent: Option<int>, next: int, env: Env): seq<RuleRow>
    requires Resolves(rs, env)
  {
    if rs == [] then []
    else [RowOf(rs[0], next + 1, parent, position, env)]
         + Tops(rs[1..], position + 1, parent, next + 1 + Size(Below(rs[0])), env)
  }

  /** The trees that were meant: the ids in walking order, a false no-resolve gone. */
  ghost function Stored(rs: seq<RuleDraft>, position: nat, next: int, env: Env): seq<RoutingRule>
    requires Resolves(rs, env)
    decreases Weight(rs)
  {
    if rs == [] then []
    else
      var id := next + 1;
      [RuleOf(RowOf(rs[0], id, None, position, env)).(children := Stored(Below(rs[0]), 0, id, env))]
      + Stored(rs[1..], position + 1, id + Size(Below(rs[0])), env)
  }

  lemma {:induction false} RowFields(r: RuleDraft, id: int, parent: Option<int>, position: nat, env: Env)
    requires NodeResolves(r, env)
    ensures var row := RowOf(r, id, parent, position, env);
            row.id == id && row.parent == parent && row.position == position && row.config == env.config
  {
  }

  lemma {:induction false} NoRows()
    ensures forall q :: ChildRows([], q) == []
  {
  }

  /** Ids are taken from the range after next, and parents are the given one or rows of the same walk. */
  lemma {:induction false} Scope(rs: seq<RuleDraft>, position: nat, parent: Option<int>, next: int, env: Env)
    requires Resolves(rs, env)
    ensures forall x :: x in Flatten(rs, position, parent, next, env) ==>
              && next < x.id <= next + Size(rs) && x.config == env.config
              && (x.parent == parent || (x.parent.Some? && next < x.parent.value < x.id))
    decreases Weight(rs)
  {
    hide RowOf, NodeResolves, Flatten, Resolves, Size;
    if rs == [] {
      EmptyForest(position, parent, next, env);
    } else {
      FlattenParts(rs, position, parent, next, env);
      RowFields(rs[0], next + 1, parent, position, env);
      Scope(Below(rs[0]), 0, Some(next + 1), next + 1, env);
      Scope(rs[1..], position + 1, parent, next + 1 + Size(Below(rs[0])), env);
    }
  }

  /** Ids are unique, and siblings have different positions. */
  function RulesApart(): (RuleRow, RuleRow) -> bool {
    (a: RuleRow, b: RuleRow) =>
      a.id != b.id && (a.config == b.config && a.parent == b.parent ==> a.position != b.position)
  }

  lemma {:induction false} FlattenApart(rs: seq<RuleDraft>, position: nat, parent: Option<int>, next: int, env: Env)
    requires Resolves(rs, env) && (parent.Some? ==> parent.value <= next)
    ensures Increasing(Flatten(rs, position, parent, next, env), RulesApart())
    ensures forall x :: x in Flatten(rs, position, parent, next, env) && x.parent == parent ==> position <= x.position
    decreases Weight(rs)
  {
    hide Flatten, NodeResolves, RowOf, Resolves, Size, Increasing;
    if rs == [] {
      EmptyForest(position, parent, next, env);
      NoneApart();
    } else {
      FlattenParts(rs, position, parent, next, env);
      RowFields(rs[0], next + 1, parent, position, env);
      var last := next + 1 + Size(Below(rs[0]));
      Scope(Below(rs[0]), 0, Some(next + 1), next + 1, env);
      Scope(rs[1..], position + 1, parent, last, env);
      FlattenApart(Below(rs[0]), 0, Some(next + 1), next + 1, env);
      FlattenApart(rs[1..], position + 1, parent, last, env);
      PartsApart(RowOf(rs[0], next + 1, parent, position, env), Flatten(Below(rs[0]), 0, Some(next + 1), next + 1, env),
                 Flatten(rs[1..], position + 1, parent, last, env), parent, next, last);
    }
  }

  lemma {:induction false} NoneApart()
    ensures Increasing([], RulesApart())
  {
  }

  lemma {:induction false} PartsApart(row: RuleRow, below: seq<RuleRow>, rest: seq<RuleRow>, parent: Option<int>,
                                      next: int, last: int)
    requires Increasing(below, RulesApart()) && Increasing(rest, RulesApart())
    requires row.id == next + 1 <= last && row.parent == parent && (parent.Some? ==> parent.value <= next)
    requires forall x :: x in below ==> row.id < x.id <= last && x.parent.Some? && next < x.parent.value < x.id
    requires forall x :: x in rest ==>
               && last < x.id
               && if x.parent == parent then row.position < x.position else x.parent.Some? && last < x.parent.value
    ensures Increasing([row] + below + rest, RulesApart())
  {
    IncreasingConcat([row], below, RulesApart());
    IncreasingConcat([row] + below, rest, RulesApart());
  }

  /** Ids of other tables come from the save, and every parent is the given one or a row of the same walk. */
  lemma {:induction false} FlattenRefers(rs: seq<RuleDraft>, position: nat, parent: Option<int>, next: int, env: Env)
    requires Resolves(rs, env)
    ensures forall x :: x in Flatten(rs, position, parent, next, env) ==>
              && (x.group.Some? ==> x.group.value in env.groupID)
              && (x.provider.Some? ==> x.provider.value in env.providerID)
              && (x.parent == parent || HasRule(Flatten(rs, position, parent, next, env), x.parent, env.config))
    decreases Weight(rs)
  {
    hide Flatten, Resolves, Size, NodeResolves, RowOf;
    if rs == [] {
      EmptyForest(position, parent, next, env);
    } else {
      FlattenParts(rs, position, parent, next, env);
      RowFields(rs[0], next + 1, parent, position, env);
      RowRefers(rs[0], next + 1, parent, position, env);
      var last := next + 1 + Size(Below(rs[0]));
      FlattenRefers(Below(rs[0]), 0, Some(next + 1), next + 1, env);
      FlattenRefers(rs[1..], position + 1, parent, last, env);
      var row := RowOf(rs[0], next + 1, parent, position, env);
      var below := Flatten(Below(rs[0]), 0, Some(next + 1), next + 1, env);
      var rest := Flatten(rs[1..], position + 1, parent, last, env);
      var all := [row] + below + rest;
      assert row in all && HasRule(all, Some(next + 1), env.config);
    }
  }

  predicate HasRule(rows: seq<RuleRow>, id: Option<int>, config: int) {
    id.Some? && exists x :: x in rows && x.id == id.value && x.config == config
  }

  lemma {:induction false} RowRefers(r: RuleDraft, id: int, parent: Option<int>, position: nat, env: Env)
    requires NodeResolves(r, env)
    ensures var row := RowOf(r, id, parent, position, env);
            && (row.group.Some? ==> row.group.value in env.groupID)
            && (row.provider.Some? ==> row.provider.value in env.providerID)
  {
  }

  /** The rows under one parent inside a walk are found in its three parts. */
  lemma {:induction false} ChildRowsOfFlatten(rs: seq<RuleDraft>, position: nat, parent: Option<int>, next: int,
                                              env: Env, q: Option<int>)
    requires Resolves(rs, env) && rs != []
    ensures ChildRows(Flatten(rs, position, parent, next, env), q) ==
            (if parent == q then [RowOf(rs[0], next + 1, parent, position, env)] else [])
            + ChildRows(Flatten(Below(rs[0]), 0, Some(next + 1), next + 1, env), q)
            + ChildRows(Flatten(rs[1..], position + 1, parent, next + 1 + Size(Below(rs[0])), env), q)
  {
    hide RowOf, NodeResolves, Below, Flatten, Resolves, Size;
    FlattenParts(rs, position, parent, next, env);
    var own := [RowOf(rs[0], next + 1, parent, position, env)];
    RowFields(rs[0], next + 1, parent, position, env);
    var below := Flatten(Below(rs[0]), 0, Some(next + 1), next + 1, env);
    var rest := Flatten(rs[1..], position + 1, parent, next + 1 + Size(Below(rs[0])), env);
    assert own[1..] == [];
    FilterConcat(own, below, HasParent(q));
    FilterConcat(own + below, rest, HasParent(q));
  }

  lemma {:induction false} NoChildRows(rs: seq<RuleDraft>, position: nat, parent: Option<int>, next: int, env: Env,
                                       q: Option<int>)
    requires Resolves(rs, env) && q != parent && (q.Some? ==> q.value <= next || q.value > next + Size(rs))
    ensures ChildRows(Flatten(rs, position, parent, next, env), q) == []
  {
    Scope(rs, position, parent, next, env);
    FilterNone(Flatten(rs, position, parent, next, env), HasParent(q));
  }

  lemma {:induction false} TopRows(rs: seq<RuleDraft>, position: nat, parent: Option<int>, next: int, env: Env)
    requires Resolves(rs, env) && (parent.Some? ==> parent.value <= next)
    ensures ChildRows(Flatten(rs, position, parent, next, env), parent) == Tops(rs, position, parent, next, env)
    decreases |rs|
  {
    hide RowOf, NodeResolves, Flatten, Resolves, Size, ChildRows;
    if rs == [] {
      EmptyForest(position, parent, next, env);
      NoRows();
    } else {
      FlattenParts(rs, position, parent, next, env);
      ChildRowsOfFlatten(rs, position, parent, next, env, parent);
      NoChildRows(Below(rs[0]), 0, Some(next + 1), next + 1, env, parent);
      TopRows(rs[1..], position + 1, parent, next + 1 + Size(Below(rs[0])), env);
    }
  }

  // ----- an ORDER BY answer shows every sibling list in draft order

  function ByPosition(): (RuleRow, RuleRow) -> bool {
    (a: RuleRow, b: RuleRow) => a.position < b.position
  }

  lemma {:induction false} TopsIncreasing(rs: seq<RuleDraft>, position: nat, parent: Option<int>, next: int, env: Env)
    requires Resolves(rs, env)
    ensures Increasing(Tops(rs, position, parent, next, env), ByPosition())
    ensures forall x :: x in Tops(rs, position, parent, next, env) ==> position <= x.position
  {
    hide RowOf, NodeResolves;
    if rs == [] {
    } else {
      RowFields(rs[0], next + 1, parent, position, env);
      TopsIncreasing(rs[1..], position + 1, parent, next + 1 + Size(Below(rs[0])), env);
    }
  }

  /** Inside a walk, the rows under q lie in the part whose id range contains q. */
  lemma {:induction false} PartOf(rs: seq<RuleDraft>, position: nat, parent: Option<int>, next: int, env: Env, q: int)
    requires Resolves(rs, env) && rs != [] && (parent.Some? ==> parent.value <= next) && next < q
    ensures ChildRows(Flatten(rs, position, parent, next, env), Some(q)) ==
            if q <= next + 1 + Size(Below(rs[0]))
              then ChildRows(Flatten(Below(rs[0]), 0, Some(next + 1), next + 1, env), Some(q))
              else ChildRows(Flatten(rs[1..], position + 1, parent, next + 1 + Size(Below(rs[0])), env), Some(q))
  {
    hide RowOf, NodeResolves, ChildRows, Flatten;
    ChildRowsOfFlatten(rs, position, parent, next, env, Some(q));
    if q <= next + 1 + Size(Below(rs[0])) {
      NoChildRows(rs[1..], position + 1, parent, next + 1 + Size(Below(rs[0])), env, Some(q));
    } else {
      NoChildRows(Below(rs[0]), 0, Some(next + 1), next + 1, env, Some(q));
    }
  }

  lemma {:induction false} SiblingsIncreasing(rs: seq<RuleDraft>, position: nat, parent: Option<int>, next: int,
                                              env: Env, q: Option<int>)
    requires Resolves(rs, env) && (parent.Some? ==> parent.value <= next)
    ensures Increasing(ChildRows(Flatten(rs, position, parent, next, env), q), ByPosition())
    decreases Weight(rs)
  {
    hide RowOf, NodeResolves, ChildRows, Flatten, Resolves, Size, Increasing;
    if q == parent {
      TopRows(rs, position, parent, next, env);
      TopsIncreasing(rs, position, parent, next, env);
    } else if q.None? || q.value <= next || rs == [] {
      NoChildRowsOutside(rs, position, parent, next, env, q);
      NothingIncreasing();
    } else {
      FlattenParts(rs, position, parent, next, env);
      PartOf(rs, position, parent, next, env, q.value);
      if q.value <= next + 1 + Size(Below(rs[0])) {
        SiblingsIncreasing(Below(rs[0]), 0, Some(next + 1), next + 1, env, q);
      } else {
        SiblingsIncreasing(rs[1..], position + 1, parent, next + 1 + Size(Below(rs[0])), env, q);
      }
    }
  }

  lemma {:induction false} NothingIncreasing()
    ensures Increasing([], ByPosition())
  {
  }

  lemma {:induction false} NoChildRowsOutside(rs: seq<RuleDraft>, position: nat, parent: Option<int>, next: int,
                                              env: Env, q: Option<int>)
    requires Resolves(rs, env) && q != parent && (q.None? || q.value <= next || rs == [])
    ensures ChildRows(Flatten(rs, position, parent, next, env), q) == []
  {
    if rs != [] {
      NoChildRows(rs, position, parent, next, env, q);
    }
  }

  /** The rows of the saved config in the table are exactly those of the walk. */
  ghost predicate Holds(table: seq<RuleRow>, flat: seq<RuleRow>, config: int) {
    && (forall x :: x in table && x.config == config ==> x in flat)
    && (forall x :: x in flat ==> x in table && x.config == config)
  }

  lemma {:induction false} AnswerSiblings(rows: seq<RuleRow>, table: seq<RuleRow>, flat: seq<RuleRow>, config: int,
                                          q: Option<int>)
    requires RuleAnswer(rows, table, config) && Holds(table, flat, config)
    requires Increasing(ChildRows(flat, q), ByPosition())
    ensures ChildRows(rows, q) == ChildRows(flat, q)
  {
    var keep := HasParent(q);
    forall i, j | 0 <= i < j < |rows| && keep(rows[i]) && keep(rows[j])
      ensures ByPosition()(rows[i], rows[j])
    {
      assert Before(rows[i], rows[j]);
      assert rows[i] in ChildRows(flat, q) && rows[j] in ChildRows(flat, q);
    }
    FilterIncreasing(rows, keep, ByPosition());
    SameIncreasing(ChildRows(rows, q), ChildRows(flat, q), ByPosition());
  }

  /** rows shows the same children as the walk, for every id given out in the walk. */
  ghost predicate Mirrors(rows: seq<RuleRow>, rs: seq<RuleDraft>, position: nat, parent: Option<int>, next: int,
                          env: Env)
    requires Resolves(rs, env)
  {
    forall q :: next < q <= next + Size(rs) ==>
      ChildRows(rows, Some(q)) == ChildRows(Flatten(rs, position, parent, next, env), Some(q))
  }

  lemma {:induction false} MirrorsParts(rows: seq<RuleRow>, rs: seq<RuleDraft>, position: nat, parent: Option<int>,
                                        next: int, env: Env)
    requires Resolves(rs, env) && rs != [] && (parent.Some? ==> parent.value <= next)
    requires Mirrors(rows, rs, position, parent, next, env)
    ensures Mirrors(rows, Below(rs[0]), 0, Some(next + 1), next + 1, env)
    ensures Mirrors(rows, rs[1..], position + 1, parent, next + 1 + Size(Below(rs[0])), env)
    ensures ChildRows(rows, Some(next + 1)) == Tops(Below(rs[0]), 0, Some(next + 1), next + 1, env)
  {
    hide ChildRows, Flatten, NodeResolves, RowOf;
    forall q | next < q <= next + Size(rs)
      ensures ChildRows(rows, Some(q)) ==
              if q <= next + 1 + Size(Below(rs[0]))
              then ChildRows(Flatten(Below(rs[0]), 0, Some(next + 1), next + 1, env), Some(q))
              else ChildRows(Flatten(rs[1..], position + 1, parent, next + 1 + Size(Below(rs[0])), env), Some(q))
    {
      PartOf(rs, position, parent, next, env, q);
    }
    TopRows(Below(rs[0]), 0, Some(next + 1), next + 1, env);
  }

  lemma {:induction false} ChildrenInRows(rows: seq<RuleRow>, q: Option<int>)
    ensures forall x :: x in ChildRows(rows, q) ==> x in rows && x.parent == q
  {
  }

  /** Freezing the sibling rows of a walk rebuilds the trees that were walked. */
  lemma {:induction false} FreezeTops(rows: seq<RuleRow>, rs: seq<RuleDraft>, position: nat, parent: Option<int>,
                                      next: int, env: Env, path: seq<RuleRow>)
    requires Readable(rows) && Resolves(rs, env) && (parent.Some? ==> parent.value <= next)
    requires Mirrors(rows, rs, position, parent, next, env)
    requires Lineage(rows, path)
    requires forall x :: x in Tops(rs, position, parent, next, env) ==> x in rows && x.parent == Under(path)
    ensures FreezeAll(rows, Tops(rs, position, parent, next, env), path) == Stored(rs, position, next, env)
    decreases Weight(rs)
  {
    hide ChildRows, Flatten, NodeResolves, Mirrors, Readable, Lineage, Under, RuleOf, RowOf, Size, Resolves;
    if rs == [] {
    } else {
      FlattenParts(rs, position, parent, next, env);
      RowFields(rs[0], next + 1, parent, position, env);
      var id := next + 1;
      var row := RowOf(rs[0], id, parent, position, env);
      var rest := Tops(rs[1..], position + 1, parent, id + Size(Below(rs[0])), env);
      assert Tops(rs, position, parent, next, env) == [row] + rest;
      assert row in Tops(rs, position, parent, next, env);
      MirrorsParts(rows, rs, position, parent, next, env);
      ChildrenInRows(rows, Some(id));
      RuleOfIgnoresParent(rs[0], id, parent, position, env);
      LineageGrows(rows, path, row);
      FreezeTops(rows, Below(rs[0]), 0, Some(id), id, env, path + [row]);
      FreezeTops(rows, rs[1..], position + 1, parent, id + Size(Below(rs[0])), env, path);
      assert ([row] + rest)[1..] == rest;
    }
  }

  lemma {:induction false} RuleOfIgnoresParent(r: RuleDraft, id: int, parent: Option<int>, position: nat, env: Env)
    requires NodeResolves(r, env)
    ensures RuleOf(RowOf(r, id, parent, position, env)) == RuleOf(RowOf(r, id, None, position, env))
  {
  }

  lemma {:induction false} AnswerMirrors(rows: seq<RuleRow>, table: seq<RuleRow>, rs: seq<RuleDraft>, next: nat,
                                         env: Env)
    requires Resolves(rs, env)
    requires RuleAnswer(rows, table, env.config) && Holds(table, Flatten(rs, 0, None, next, env), env.config)
    ensures Mirrors(rows, rs, 0, None, next, env) && ChildRows(rows, None) == Tops(rs, 0, None, next, env)
  {
    hide NodeResolves, RowOf, Flatten, ChildRows, RuleAnswer, Holds, Resolves;
    var flat := Flatten(rs, 0, None, next, env);
    forall q: Option<int> ensures ChildRows(rows, q) == ChildRows(flat, q) {
      SiblingsIncreasing(rs, 0, None, next, env, q);
      AnswerSiblings(rows, table, flat, env.config, q);
    }
    TopRows(rs, 0, None, next, env);
  }

  /**
   Whatever else the table holds, and whichever answer the database gives to the ordered query,
   reading a saved config links its rows back into exactly the trees that were saved.
   */
  lemma {:induction false} ReadBack(rows: seq<RuleRow>, table: seq<RuleRow>, rs: seq<RuleDraft>, next: nat, env: Env)
    requires Resolves(rs, env)
    requires RuleAnswer(rows, table, env.config) && Holds(table, Flatten(rs, 0, None, next, env), env.config)
    ensures Readable(rows) && Linked(rows) == Stored(rs, 0, next, env)
  {
    hide NodeResolves, RowOf, Flatten, ChildRows, Holds, Resolves, Mirrors, Stored, FreezeAll;
    AnswerMirrors(rows, table, rs, next, env);
    RootsInRows(rows);
    FreezeTops(rows, rs, 0, None, next, env, []);
  }

  function MaxID(rows: seq<RuleRow>): (m: nat)
    ensures forall x :: x in rows ==> x.id <= m
    ensures m == 0 || exists x :: x in rows && x.id == m
  {
    if rows == [] then 0
    else
      assert rows == [rows[0]] + rows[1..];
      var rest := MaxID(rows[1..]);
      if rows[0].id > rest then rows[0].id else rest
  }

  lemma {:induction false} RootsInRows(rows: seq<RuleRow>)
    ensures Lineage(rows, []) && forall x :: x in ChildRows(rows, None) ==> x in rows && x.parent == Under([])
  {
  }

  /** The trees below the rows without a parent. */
  ghost function Linked(rows: seq<RuleRow>): seq<RoutingRule>
    requires Readable(rows)
  {
    RootsInRows(rows);
    FreezeAll(rows, ChildRows(rows, None), [])
  }

  /** A rule carries what its row holds; a target is there when its kind is. */
  lemma {:induction false} RuleOfMeans(row: RuleRow)
    ensures var rule := RuleOf(row);
            && rule.id == row.id && rule.position == row.position && rule.typ == row.typ && rule.value == row.value
            && rule.providerID == row.provider && rule.children == []
            && rule.noResolve == (if row.noResolve then Some(true) else None)
            && (row.kind.None? ==> rule.target == None)
            && (row.kind.Some? ==> rule.target == Some(PolicyRef(row.kind.value, row.inbound, row.group)))
  {
  }

  /** Each tree below siblings is its row's rule, with the trees of the rows that name it below it, in order. */
  lemma {:induction false} FrozenMeans(rows: seq<RuleRow>, siblings: seq<RuleRow>, path: seq<RuleRow>, k: nat)
    requires Readable(rows) && Lineage(rows, path) && forall x :: x in siblings ==> x in rows && x.parent == Under(path)
    requires k < |siblings|
    ensures |FreezeAll(rows, siblings, path)| == |siblings|
    ensures var tree, row := FreezeAll(rows, siblings, path)[k], siblings[k];
            && tree.(children := []) == RuleOf(row)
            && Lineage(rows, path + [row])
            && (forall x :: x in ChildRows(rows, Some(row.id)) ==> x in rows && x.parent == Under(path + [row]))
            && tree.children == FreezeAll(rows, ChildRows(rows, Some(row.id)), path + [row])
    decreases |siblings|
  {
    hide ChildRows, RuleOf, Readable, Lineage;
    LineageGrows(rows, path, siblings[k]);
    ChildrenInRows(rows, Some(siblings[k].id));
    RuleOfMeans(siblings[k]);
    LineageGrows(rows, path, siblings[0]);
    FrozenAll(rows, siblings, path);
    assert (path + [siblings[k]])[|path|] == siblings[k];
    if k == 0 {
    } else {
      FrozenMeans(rows, siblings[1..], path, k - 1);
    }
  }

  lemma {:induction false} FrozenAll(rows: seq<RuleRow>, siblings: seq<RuleRow>, path: seq<RuleRow>)
    requires Readable(rows) && Lineage(rows, path) && forall x :: x in siblings ==> x in rows && x.parent == Under(path)
    ensures |FreezeAll(rows, siblings, path)| == |siblings|
    decreases |siblings|
  {
    hide Freeze;
    if siblings == [] {
    } else {
      FrozenAll(rows, siblings[1..], path);
    }
  }

  lemma {:induction false} FreezeAppend(rows: seq<RuleRow>, siblings: seq<RuleRow>, last: RuleRow, path: seq<RuleRow>)
    requires Readable(rows) && Lineage(rows, path)
    requires forall x :: x in siblings + [last] ==> x in rows && x.parent == Under(path)
    ensures (forall x :: x in siblings ==> x in rows && x.parent == Under(path)) && Lineage(rows, path + [last])
    ensures FreezeAll(rows, siblings + [last], path) == FreezeAll(rows, siblings, path) + [Freeze(rows, path + [last])]
    decreases |siblings|
  {
    hide Freeze, Readable, Lineage, Under;
    assert last in siblings + [last];
    assert forall x :: x in siblings ==> x in siblings + [last];
    LineageGrows(rows, path, last);
    if siblings == [] {
      assert [last][1..] == [] && [] + [last] == [last];
    } else {
      assert (siblings + [last])[1..] == siblings[1..] + [last];
      FreezeAppend(rows, siblings[1..], last, path);
    }
  }

  lemma {:induction false} ChildRowsAppend(rows: seq<RuleRow>, k: nat, q: Option<int>)
    requires k < |rows|
    ensures ChildRows(rows[..k + 1], q) == ChildRows(rows[..k], q) + if rows[k].parent == q then [rows[k]] else []
  {
    var last := [rows[k]];
    assert last[1..] == [];
    FilterConcat(rows[..k], last, HasParent(q));
    assert rows[..k + 1] == rows[..k] + last;
  }

  /** Links the rows of a config, in answer order, into trees. */
  method ReadRules(rows: seq<RuleRow>) returns (out: seq<RoutingRule>)
    requires Readable(rows)
    ensures out == Linked(rows)
  {
    hide ChildRows, FreezeAll;
    var children: map<int, seq<RuleRow>> := map[];
    for k := 0 to |rows|
      invariant forall x :: x in rows[..k] ==> x.id in children && children[x.id] == []
      invariant forall id :: id in children ==> children[id] == []
    {
      children := children[rows[k].id := []];
    }
    assert rows[..|rows|] == rows;
    var roots: seq<RuleRow> := [];
    NoRows();
    for k := 0 to |rows|
      invariant roots == ChildRows(rows[..k], None)
      invariant forall x :: x in rows ==> x.id in children
      invariant forall id :: id in children ==> children[id] == ChildRows(rows[..k], Some(id))
    {
      var row := rows[k];
      ChildRowsAppend(rows, k, None);
      forall id { ChildRowsAppend(rows, k, Some(id)); }
      if row.parent.Some? {
        if row.parent.value in children {
          children := children[row.parent.value := children[row.parent.value] + [row]];
        }
      } else {
        roots := roots + [row];
      }
    }
    RootsInRows(rows);
    out := FreezeSiblings(rows, children, roots, []);
  }

  method FreezeSiblings(ghost rows: seq<RuleRow>, children: map<int, seq<RuleRow>>, siblings: seq<RuleRow>,
                        ghost path: seq<RuleRow>)
    returns (out: seq<RoutingRule>)
    requires Readable(rows) && Lineage(rows, path)
    requires forall x :: x in siblings ==> x in rows && x.parent == Under(path)
    requires forall x :: x in rows ==> x.id in children && children[x.id] == ChildRows(rows, Some(x.id))
    ensures out == FreezeAll(rows, siblings, path)
    decreases |rows| - |path|
  {
    hide ChildRows, FreezeAll, Readable, Lineage, Under;
    out := [];
    NoSiblings(rows, path);
    for k := 0 to |siblings|
      invariant forall x :: x in siblings[..k] ==> x in rows && x.parent == Under(path)
      invariant out == FreezeAll(rows, siblings[..k], path)
    {
      var row := siblings[k];
      ChildrenInRows(rows, Some(row.id));
      LineageGrows(rows, path, row);
      assert (path + [row])[|path|] == row;
      var below := FreezeSiblings(rows, children, children[row.id], path + [row]);
      out := out + [RuleOf(row).(children := below)];
      assert siblings[..k + 1] == siblings[..k] + [row];
      FreezeAppend(rows, siblings[..k], row, path);
    }
    assert siblings[..|siblings|] == siblings;
  }

  lemma {:induction false} NoSiblings(rows: seq<RuleRow>, path: seq<RuleRow>)
    requires Readable(rows) && Lineage(rows, path)
    ensures FreezeAll(rows, [], path) == []
  {
  }
}
