/**
 The group-to-group reference graph of a list of group drafts. An edge is a member of kind
 group whose index is present and in range; members with absent or out-of-range indices, which
 unvalidated drafts may hold, are no edges.
 */
module GroupGraph {
  import opened Wrappers
  import opened Drafts

  /** The group a member refers to, when it is an in-range group reference. */
  function Target(m: RefDraft, n: nat): (t: Option<nat>)
    ensures t.Some? ==> t.value < n
  {
    if m.kind == POLICY_GROUP && m.groupIdx.Some? && 0 <= m.groupIdx.value < n then Some(m.groupIdx.value) else None
  }

  ghost predicate Edge(groups: seq<GroupDraft>, i: nat, j: nat) {
    i < |groups| && exists k :: 0 <= k < |groups[i].members| && Target(groups[i].members[k], |groups|) == Some(j)
  }

  /** There is a reference from i to j when some member of i is a group reference with the index j. */
  lemma {:induction false} EdgeMeans(groups: seq<GroupDraft>, i: nat, j: nat)
    ensures Edge(groups, i, j) <==>
            && i < |groups| && j < |groups|
            && exists k :: 0 <= k < |groups[i].members| && groups[i].members[k].kind == "group"
                           && groups[i].members[k].groupIdx == Some(j)
  {
  }

  ghost predicate Walk(groups: seq<GroupDraft>, w: seq<nat>) {
    && |w| > 0
    && (forall k :: 0 <= k < |w| ==> w[k] < |groups|)
    && (forall k :: 0 < k < |w| ==> Edge(groups, w[k - 1], w[k]))
  }

  ghost predicate ClosedWalk(groups: seq<GroupDraft>, w: seq<nat>) {
    Walk(groups, w) && |w| >= 2 && w[0] == w[|w| - 1]
  }

  ghost predicate HasCycle(groups: seq<GroupDraft>) {
    exists w :: ClosedWalk(groups, w)
  }

  /** rank assigns every group a number that strictly decreases along every reference. */
  ghost predicate Ranking(groups: seq<GroupDraft>, rank: seq<nat>) {
    |rank| == |groups| && forall i: nat, j: nat :: Edge(groups, i, j) ==> rank[j] < rank[i]
  }

  ghost predicate Distinct(s: seq<nat>) {
    forall a, b :: 0 <= a < b < |s| ==> s[a] != s[b]
  }

  /** Distinct numbers below n are at most n. */
  lemma {:induction false} Pigeonhole(s: seq<nat>, n: nat)
    requires Distinct(s) && forall k :: 0 <= k < |s| ==> s[k] < n
    ensures |s| <= n
  {
    if s == [] {
      assert |s| == 0;
      return;
    }
    assert s[0] < n;
    if exists k :: 0 <= k < |s| && s[k] == n - 1 {
      var k :| 0 <= k < |s| && s[k] == n - 1;
      Pigeonhole(s[..k] + s[k + 1..], n - 1);
    } else {
      Pigeonhole(s, n - 1);
    }
  }

  /** Without a cycle a chain of references never visits a group twice, so it is short. */
  lemma {:induction false} ChainsAreShort(groups: seq<GroupDraft>, w: seq<nat>)
    requires !HasCycle(groups) && Walk(groups, w)
    ensures Distinct(w) && |w| <= |groups|
  {
    if a, b :| 0 <= a < b < |w| && w[a] == w[b] {
      assert ClosedWalk(groups, w[a..b + 1]);
    }
    Pigeonhole(w, |groups|);
  }

  lemma {:induction false} RankFallsAlong(groups: seq<GroupDraft>, rank: seq<nat>, w: seq<nat>)
    requires Ranking(groups, rank) && Walk(groups, w)
    ensures |w| >= 2 ==> rank[w[|w| - 1]] < rank[w[0]]
  {
    if |w| < 2 {
    } else {
      RankFallsAlong(groups, rank, w[1..]);
    }
  }

  /** The length of the longest chain of references from i, cut off at fuel. */
  ghost function Height(groups: seq<GroupDraft>, i: nat, fuel: nat): nat
    requires i < |groups|
    decreases fuel, 1, 0
  {
    if fuel == 0 then 0 else HeightOver(groups, i, |groups|, fuel)
  }

  ghost function HeightOver(groups: seq<GroupDraft>, i: nat, upTo: nat, fuel: nat): (h: nat)
    requires i < |groups| && upTo <= |groups| && fuel > 0
    decreases fuel, 0, upTo
  {
    if upTo == 0 then 0
    else
      var rest := HeightOver(groups, i, upTo - 1, fuel);
      var here := if Edge(groups, i, upTo - 1) then 1 + Height(groups, upTo - 1, fuel - 1) else 0;
      if here > rest then here else rest
  }

  /** The height is one more than the height of the best successor. */
  lemma {:induction false} HeightOverBounds(groups: seq<GroupDraft>, i: nat, upTo: nat, fuel: nat)
    requires i < |groups| && upTo <= |groups| && fuel > 0
    ensures forall j :: 0 <= j < upTo && Edge(groups, i, j) ==>
                          HeightOver(groups, i, upTo, fuel) >= 1 + Height(groups, j, fuel - 1)
    ensures HeightOver(groups, i, upTo, fuel) == 0 ||
            exists j :: 0 <= j < upTo && Edge(groups, i, j) &&
                        HeightOver(groups, i, upTo, fuel) == 1 + Height(groups, j, fuel - 1)
  {
    if upTo == 0 {
    } else {
      HeightOverBounds(groups, i, upTo - 1, fuel);
    }
  }

  /** A height is witnessed by a chain with one more group than the height. */
  lemma {:induction false} HeightWalk(groups: seq<GroupDraft>, i: nat, fuel: nat) returns (w: seq<nat>)
    requires i < |groups|
    ensures Walk(groups, w) && w[0] == i && |w| == Height(groups, i, fuel) + 1
    decreases fuel
  {
    w := [i];
    if fuel == 0 {
    } else {
      HeightOverBounds(groups, i, |groups|, fuel);
      if Height(groups, i, fuel) > 0 {
        var j :| 0 <= j < |groups| && Edge(groups, i, j) && Height(groups, i, fuel) == 1 + Height(groups, j, fuel - 1);
        var rest := HeightWalk(groups, j, fuel - 1);
        w := [i] + rest;
      }
    }
  }

  /** Once the cut-off is not reached, more fuel changes nothing. */
  lemma {:induction false} HeightStable(groups: seq<GroupDraft>, i: nat, fuel: nat)
    requires i < |groups| && Height(groups, i, fuel) < fuel
    ensures Height(groups, i, fuel + 1) == Height(groups, i, fuel)
    decreases fuel
  {
    HeightOverBounds(groups, i, |groups|, fuel);
    HeightOverBounds(groups, i, |groups|, fuel + 1);
    forall j | 0 <= j < |groups| && Edge(groups, i, j)
      ensures Height(groups, j, fuel) == Height(groups, j, fuel - 1)
    {
      HeightStable(groups, j, fuel - 1);
    }
  }

  /** The graph has no closed walk exactly when a ranking exists. */
  lemma {:induction false} AcyclicIffRanked(groups: seq<GroupDraft>)
    ensures !HasCycle(groups) <==> exists rank :: Ranking(groups, rank)
  {
    if rank :| Ranking(groups, rank) {
      forall w ensures !ClosedWalk(groups, w) {
        if ClosedWalk(groups, w) {
          RankFallsAlong(groups, rank, w);
        }
      }
    }
    if !HasCycle(groups) {
      var rank := HeightRanking(groups);
    }
  }

  lemma {:induction false} HeightRanking(groups: seq<GroupDraft>) returns (rank: seq<nat>)
    requires !HasCycle(groups)
    ensures Ranking(groups, rank)
  {
    var n := |groups|;
    rank := seq(n, i requires 0 <= i < n => Height(groups, i, n));
    forall i: nat, j: nat | Edge(groups, i, j)
      ensures rank[j] < rank[i]
    {
      HeightOverBounds(groups, i, n, n);
      var v := HeightWalk(groups, j, n - 1);
      ChainsAreShort(groups, [i] + v);
      HeightStable(groups, j, n - 1);
    }
  }
}
