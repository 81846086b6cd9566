/**
 The three-colour depth-first search over the group references. The colours live in an array
 that the recursive visit writes; path, the gray groups in visiting order, and done, the black
 groups in finishing order, are ghost. Since every reference out of a finished group leads to
 an earlier finished one, done is a topological order when the search ends without a cycle.
 */
module CyclicGroups {
  import opened Wrappers
  import opened Drafts
  import opened GroupGraph

  const WHITE := 0
  const GRAY := 1
  const BLACK := 2

  /** Gray groups form the current reference path; references out of black groups stay black. */
  ghost predicate Inv(groups: seq<GroupDraft>, color: seq<int>, path: seq<nat>, done: seq<nat>) {
    && |color| == |groups|
    && Distinct(path) && (path == [] || Walk(groups, path))
    && (forall i :: 0 <= i < |color| ==> WHITE <= color[i] <= BLACK)
    && (forall i: nat :: i < |color| ==> (color[i] == GRAY <==> i in path))
    && Finished(groups, color, done)
  }

  ghost predicate Finished(groups: seq<GroupDraft>, color: seq<int>, done: seq<nat>)
    requires |color| == |groups|
  {
    && (forall k :: 0 <= k < |done| ==> done[k] < |groups|)
    && (forall i: nat :: i < |color| ==> (color[i] == BLACK <==> i in done))
    && (forall k, j: nat :: 0 <= k < |done| && Edge(groups, done[k], j) ==> j in done[..k])
  }

  /** What the search is charged for: one per visited group, or one per member of it. */
  datatype Cost = Visits | Inspections

  ghost function Charge(groups: seq<GroupDraft>, cost: Cost, i: nat): nat
    requires i < |groups|
  {
    match cost
    case Visits => 1
    case Inspections => |groups[i].members|
  }

  /** The summed charge of the white groups among the first n. */
  ghost function White(groups: seq<GroupDraft>, cost: Cost, color: seq<int>, n: nat): nat
    requires n <= |groups| == |color|
  {
    if n == 0 then 0
    else White(groups, cost, color, n - 1) + if color[n - 1] == WHITE then Charge(groups, cost, n - 1) else 0
  }

  /** The charge of all groups together. */
  ghost function Total(groups: seq<GroupDraft>, cost: Cost, n: nat): (t: nat)
    requires n <= |groups|
    ensures cost == Visits ==> t == n
  {
    if n == 0 then 0 else Total(groups, cost, n - 1) + Charge(groups, cost, n - 1)
  }

  lemma {:induction false} Repaint(groups: seq<GroupDraft>, cost: Cost, color: seq<int>, i: nat, c: int, n: nat)
    requires n <= |groups| == |color| && i < |color| && c != WHITE
    ensures White(groups, cost, color[i := c], n) + (if i < n && color[i] == WHITE then Charge(groups, cost, i) else 0)
         == White(groups, cost, color, n)
  {
    if n == 0 {
    } else {
      Repaint(groups, cost, color, i, c, n - 1);
    }
  }

  lemma {:induction false} OneColor(groups: seq<GroupDraft>, cost: Cost, color: seq<int>, c: int, n: nat)
    requires n <= |groups| == |color| && forall i :: 0 <= i < n ==> color[i] == c
    ensures White(groups, cost, color, n) == if c == WHITE then Total(groups, cost, n) else 0
  {
    if n == 0 {
    } else {
      OneColor(groups, cost, color, c, n - 1);
    }
  }

  /** A reference back to the path closes a walk. */
  lemma {:induction false} BackEdge(groups: seq<GroupDraft>, path: seq<nat>, j: nat)
    requires path != [] && Walk(groups, path) && Edge(groups, path[|path| - 1], j) && j in path
    ensures HasCycle(groups)
  {
    var t :| 0 <= t < |path| && path[t] == j;
    assert ClosedWalk(groups, path[t..] + [j]);
  }

  lemma {:induction false} WalkStaysDone(groups: seq<GroupDraft>, done: seq<nat>, k: nat, w: seq<nat>)
    requires forall k, j: nat :: 0 <= k < |done| && Edge(groups, done[k], j) ==> j in done[..k]
    requires Walk(groups, w) && k < |done| && w[0] == done[k]
    ensures |w| >= 2 ==> w[|w| - 1] in done[..k]
  {
    if |w| < 2 {
    } else {
      assert Edge(groups, done[k], w[1]) && w[1] in done[..k];
      var k' :| 0 <= k' < k && done[k'] == w[1];
      WalkStaysDone(groups, done, k', w[1..]);
      assert w[|w| - 1] == w[1..][|w[1..]| - 1];
    }
  }

  lemma {:induction false} FirstFinish(done: seq<nat>, x: nat) returns (k: nat)
    requires x in done
    ensures k < |done| && done[k] == x && x !in done[..k]
  {
    k := 0;
    while done[k] != x
      invariant k < |done| && x !in done[..k] && x in done[k..]
      decreases |done| - k
    {
      k := k + 1;
    }
  }

  lemma {:induction false} AllFinished(groups: seq<GroupDraft>, color: seq<int>, done: seq<nat>)
    requires |color| == |groups| && Finished(groups, color, done)
    requires forall i :: 0 <= i < |color| ==> color[i] == BLACK
    ensures !HasCycle(groups)
  {
    forall w ensures !ClosedWalk(groups, w) {
      if ClosedWalk(groups, w) {
        assert color[w[0]] == BLACK;
        var k := FirstFinish(done, w[0]);
        WalkStaysDone(groups, done, k, w);
      }
    }
  }

  /** Painting a white group gray appends it to the path and moves its weight out of the white ones. */
  lemma {:induction false} Enter(groups: seq<GroupDraft>, color: seq<int>, path: seq<nat>, done: seq<nat>, i: nat)
    requires i < |groups| && Inv(groups, color, path, done) && color[i] == WHITE
    requires path != [] ==> Edge(groups, path[|path| - 1], i)
    ensures Inv(groups, color[i := GRAY], path + [i], done)
    ensures |path| < |groups|
    ensures 1 + White(groups, Visits, color[i := GRAY], |groups|) == White(groups, Visits, color, |groups|)
    ensures |groups[i].members| + White(groups, Inspections, color[i := GRAY], |groups|) ==
            White(groups, Inspections, color, |groups|)
  {
    Pigeonhole(path + [i], |groups|);
    Repaint(groups, Visits, color, i, GRAY, |groups|);
    Repaint(groups, Inspections, color, i, GRAY, |groups|);
  }

  lemma {:induction false} LeavePath(groups: seq<GroupDraft>, path: seq<nat>, i: nat)
    requires Distinct(path + [i]) && Walk(groups, path + [i])
    ensures Distinct(path) && (path == [] || Walk(groups, path)) && i !in path
  {
    var path' := path + [i];
    assert path'[|path|] == i;
    assert forall k :: 0 <= k < |path| ==> path'[k] == path[k];
    assert path == path'[..|path|];
  }

  lemma {:induction false} LeaveDone(groups: seq<GroupDraft>, color: seq<int>, done: seq<nat>, i: nat)
    requires i < |groups| == |color| && Finished(groups, color, done)
    requires forall m :: m in groups[i].members && Target(m, |groups|).Some? ==> Target(m, |groups|).value in done
    ensures Finished(groups, color[i := BLACK], done + [i])
  {
    var done' := done + [i];
    assert done'[..|done|] == done;
    forall k, j: nat | 0 <= k < |done'| && Edge(groups, done'[k], j) ensures j in done'[..k] {
      assert k < |done| ==> done'[k] == done[k] && done'[..k] == done[..k];
    }
  }

  /** Painting the end of the path black finishes it, provided its references are finished. */
  lemma {:induction false} Leave(groups: seq<GroupDraft>, color: seq<int>, path: seq<nat>, done: seq<nat>, i: nat)
    requires i < |groups| && Inv(groups, color, path + [i], done)
    requires forall m :: m in groups[i].members && Target(m, |groups|).Some? ==> Target(m, |groups|).value in done
    ensures Inv(groups, color[i := BLACK], path, done + [i])
    ensures White(groups, Visits, color[i := BLACK], |groups|) == White(groups, Visits, color, |groups|)
    ensures White(groups, Inspections, color[i := BLACK], |groups|) == White(groups, Inspections, color, |groups|)
  {
    hide Walk, Finished, Distinct, White;
    assert (path + [i])[|path|] == i && color[i] == GRAY;
    LeavePath(groups, path, i);
    LeaveDone(groups, color, done, i);
    Repaint(groups, Visits, color, i, BLACK, |groups|);
    Repaint(groups, Inspections, color, i, BLACK, |groups|);
  }

  /**
   Visits a white group. visits counts the groups visited by the call and everything below
   it, inspections the members looked at: each visited group leaves white for good, and each
   of its members is looked at at most once.
   */
  method Visit(groups: seq<GroupDraft>, color: array<int>, i: nat, ghost path: seq<nat>, ghost done: seq<nat>)
    returns (found: bool, ghost done': seq<nat>, ghost visits: nat, ghost inspections: nat)
    requires i < |groups| && Inv(groups, color[..], path, done) && color[i] == WHITE
    requires path != [] ==> Edge(groups, path[|path| - 1], i)
    modifies color
    ensures found ==> HasCycle(groups)
    ensures !found ==> Inv(groups, color[..], path, done') && done <= done' && i in done'
    ensures forall k :: 0 <= k < color.Length && old(color[k]) != WHITE ==> color[k] != WHITE
    ensures visits > 0 && visits + White(groups, Visits, color[..], |groups|) ==
            White(groups, Visits, old(color[..]), |groups|)
    ensures inspections + White(groups, Inspections, color[..], |groups|)
         <= White(groups, Inspections, old(color[..]), |groups|)
    ensures !found ==>
              inspections + White(groups, Inspections, color[..], |groups|)
              == White(groups, Inspections, old(color[..]), |groups|)
    decreases |groups| - |path|
  {
    hide White, Distinct, Walk;
    ghost var path' := path + [i];
    ghost var before := color[..];
    Enter(groups, before, path, done, i);
    color[i] := GRAY;
    assert color[..] == before[i := GRAY];
    done', visits, inspections := done, 1, 0;
    var members := groups[i].members;
    var k := 0;
    while k < |members|
      invariant 0 <= k <= |members|
      invariant Inv(groups, color[..], path', done') && done <= done'
      invariant forall m :: 0 <= m < k && Target(members[m], |groups|).Some? ==>
                  Target(members[m], |groups|).value in done'
      invariant forall x :: 0 <= x < color.Length && before[x] != WHITE ==> color[x] != WHITE
      invariant visits > 0 && visits + White(groups, Visits, color[..], |groups|) ==
                White(groups, Visits, before, |groups|)
      invariant inspections + White(groups, Inspections, color[..], |groups|) + |members| - k
             == White(groups, Inspections, before, |groups|)
    {
      var m := members[k];
      inspections := inspections + 1;
      k := k + 1;
      if m.kind != POLICY_GROUP || m.groupIdx.None? {
        continue;
      }
      var j := m.groupIdx.value;
      if j < 0 || j >= |groups| {
        continue;
      }
      assert Target(members[k - 1], |groups|) == Some(j);
      assert Edge(groups, i, j);
      if color[j] == GRAY {
        BackEdge(groups, path', j);
        return true, done', visits, inspections;
      }
      if color[j] == WHITE {
        ghost var below, looked;
        found, done', below, looked := Visit(groups, color, j, path', done');
        visits, inspections := visits + below, inspections + looked;
        if found {
          return true, done', visits, inspections;
        }
      }
    }
    ghost var gray := color[..];
    Leave(groups, gray, path, done', i);
    color[i] := BLACK;
    assert color[..] == gray[i := BLACK];
    done' := done' + [i];
    found := false;
  }

  /**
   Exact: true exactly when the reference graph has a closed walk, whatever the indices are.
   Linear: each group is visited at most once and each member inspected at most once.
   */
  method CyclicGroups(groups: seq<GroupDraft>) returns (cyclic: bool, ghost visits: nat, ghost inspections: nat)
    ensures cyclic <==> HasCycle(groups)
    ensures visits <= |groups| && inspections <= Total(groups, Inspections, |groups|)
    ensures !cyclic ==> visits == |groups| && inspections == Total(groups, Inspections, |groups|)
  {
    hide White, Total;
    var color := new int[|groups|](_ => WHITE);
    OneColor(groups, Visits, color[..], WHITE, |groups|);
    OneColor(groups, Inspections, color[..], WHITE, |groups|);
    ghost var done: seq<nat> := [];
    visits, inspections := 0, 0;
    for i := 0 to |groups|
      invariant Inv(groups, color[..], [], done)
      invariant forall k: nat :: k < i ==> k in done
      invariant visits + White(groups, Visits, color[..], |groups|) == Total(groups, Visits, |groups|)
      invariant inspections + White(groups, Inspections, color[..], |groups|) == Total(groups, Inspections, |groups|)
    {
      if color[i] == WHITE {
        ghost var below, looked;
        cyclic, done, below, looked := Visit(groups, color, i, [], done);
        visits, inspections := visits + below, inspections + looked;
        if cyclic {
          return true, visits, inspections;
        }
      }
    }
    AllFinished(groups, color[..], done);
    OneColor(groups, Visits, color[..], BLACK, |groups|);
    OneColor(groups, Inspections, color[..], BLACK, |groups|);
    cyclic := false;
  }
}
