/** Rows of a table as sequences: selection, and what an ORDER BY answer determines. */
module Tables {

  function Filter<T>(s: seq<T>, keep: T -> bool): (r: seq<T>)
    ensures forall x {:trigger x in r} :: x in r ==> x in s && keep(x)
    ensures forall x {:trigger x in s} :: x in s && keep(x) ==> x in r
  {
    if s == [] then []
    else
      assert s == [s[0]] + s[1..];
      (if keep(s[0]) then [s[0]] else []) + Filter(s[1..], keep)
  }

  lemma {:induction false} FilterStep<T>(s: seq<T>, keep: T -> bool)
    ensures Filter(s, keep) ==
            if s == [] then [] else (if keep(s[0]) then [s[0]] else []) + Filter(s[1..], keep)
  {
  }

  lemma {:induction false} Assoc<T>(a: seq<T>, b: seq<T>, c: seq<T>)
    ensures a + b + c == a + (b + c)
  {
  }

  lemma {:induction false} FilterConcat<T>(a: seq<T>, b: seq<T>, keep: T -> bool)
    ensures Filter(a + b, keep) == Filter(a, keep) + Filter(b, keep)
  {
    hide Filter;
    FilterStep(a, keep);
    if a == [] {
      assert a + b == b;
    } else {
      var head := if keep(a[0]) then [a[0]] else [];
      FilterStep(a + b, keep);
      assert (a + b)[0] == a[0] && (a + b)[1..] == a[1..] + b;
      FilterConcat(a[1..], b, keep);
      Assoc(head, Filter(a[1..], keep), Filter(b, keep));
    }
  }

  lemma {:induction false} FilterNone<T>(s: seq<T>, keep: T -> bool)
    requires forall x :: x in s ==> !keep(x)
    ensures Filter(s, keep) == []
  {
    if s == [] {
    } else {
      FilterNone(s[1..], keep);
    }
  }

  lemma {:induction false} FilterAll<T>(s: seq<T>, keep: T -> bool)
    requires forall x :: x in s ==> keep(x)
    ensures Filter(s, keep) == s
  {
    if s == [] {
    } else {
      FilterAll(s[1..], keep);
    }
  }

  /** Adding rows that fail a test does not change the selection of those that pass it. */
  lemma {:induction false} FilterReplaced<T(!new)>(kept: seq<T>, added: seq<T>, keep: T -> bool)
    requires (forall x :: x in kept ==> keep(x)) && forall x :: x in added ==> !keep(x)
    ensures Filter(kept + added, keep) == kept
  {
    FilterConcat(kept, added, keep);
    FilterAll(kept, keep);
    FilterNone(added, keep);
  }

  /** Every element stands before all later ones in the strict order less. */
  ghost predicate Increasing<T>(s: seq<T>, less: (T, T) -> bool) {
    forall i, j :: 0 <= i < j < |s| ==> less(s[i], s[j])
  }

  ghost predicate Asymmetric<T(!new)>(less: (T, T) -> bool) {
    forall x, y :: less(x, y) ==> !less(y, x)
  }

  /** If the kept elements stand in increasing order, the selection is increasing. */
  lemma {:induction false} FilterIncreasing<T>(s: seq<T>, keep: T -> bool, less: (T, T) -> bool)
    requires forall i, j :: 0 <= i < j < |s| && keep(s[i]) && keep(s[j]) ==> less(s[i], s[j])
    ensures Increasing(Filter(s, keep), less)
  {
    if s == [] {
    } else {
      FilterIncreasing(s[1..], keep, less);
      var rest := Filter(s[1..], keep);
      if keep(s[0]) {
        forall j | 0 <= j < |rest| ensures less(s[0], rest[j]) {
          assert rest[j] in rest;
          var k :| 0 <= k < |s[1..]| && s[1..][k] == rest[j];
          assert s[k + 1] == rest[j];
        }
      }
    }
  }

  lemma {:induction false} IncreasingConcat<T>(a: seq<T>, b: seq<T>, less: (T, T) -> bool)
    requires Increasing(a, less) && Increasing(b, less)
    requires forall x, y :: x in a && y in b ==> less(x, y)
    ensures Increasing(a + b, less)
  {
  }

  /** Two increasing sequences with the same elements are the same. */
  lemma {:induction false} SameIncreasing<T(!new)>(a: seq<T>, b: seq<T>, less: (T, T) -> bool)
    requires Asymmetric(less) && Increasing(a, less) && Increasing(b, less)
    requires forall x :: x in a ==> x in b
    requires forall x :: x in b ==> x in a
    ensures a == b
  {
    assert (a == [] || a[0] in a) && (b == [] || b[0] in b);
    if a == [] {
    } else {
      SameHead(a, b, less);
      SameTail(a, b, less);
      SameTail(b, a, less);
      SameIncreasing(a[1..], b[1..], less);
    }
  }

  lemma {:induction false} SameHead<T(!new)>(a: seq<T>, b: seq<T>, less: (T, T) -> bool)
    requires Asymmetric(less) && Increasing(a, less) && Increasing(b, less)
    requires a != [] && b != [] && a[0] in b && b[0] in a
    ensures a[0] == b[0]
  {
    var i :| 0 <= i < |b| && b[i] == a[0];
    var j :| 0 <= j < |a| && a[j] == b[0];
  }

  lemma {:induction false} SameTail<T(!new)>(a: seq<T>, b: seq<T>, less: (T, T) -> bool)
    requires Asymmetric(less) && Increasing(a, less) && a != [] && b != [] && a[0] == b[0]
    requires forall x :: x in a ==> x in b
    ensures forall x :: x in a[1..] ==> x in b[1..]
  {
    forall x | x in a[1..] ensures x in b[1..] {
      var k :| 0 <= k < |a[1..]| && a[1..][k] == x;
      assert a[k + 1] == x && x in a && less(a[0], x);
      var i :| 0 <= i < |b| && b[i] == x;
      assert b[1..][i - 1] == x;
    }
  }

  /** Two different elements of a list stand in the relation that every earlier one has to every later one. */
  lemma {:induction false} Apart<T(!new)>(s: seq<T>, differ: (T, T) -> bool, x: T, y: T)
    requires Increasing(s, differ) && Symmetric(differ) && x in s && y in s && x != y
    ensures differ(x, y)
  {
    var i :| 0 <= i < |s| && s[i] == x;
    var j :| 0 <= j < |s| && s[j] == y;
  }

  /** Elements that differ and all occur in s are no more than s has. */
  lemma {:induction false} NoMoreThan<T(!new)>(a: seq<T>, s: seq<T>)
    requires forall i, j :: 0 <= i < j < |a| ==> a[i] != a[j]
    requires forall x :: x in a ==> x in s
    ensures |a| <= |s|
  {
    if a == [] {
    } else {
      var first := a[0];
      assert first in a;
      var k :| 0 <= k < |s| && s[k] == first;
      var rest := s[..k] + s[k + 1..];
      forall x | x in a[1..] ensures x in rest {
        var i :| 0 <= i < |a[1..]| && a[1..][i] == x;
        assert a[i + 1] == x && x in a;
        var j :| 0 <= j < |s| && s[j] == x;
        assert if j < k then rest[j] == x else rest[j - 1] == x;
      }
      NoMoreThan(a[1..], rest);
    }
  }

  // ----- an ordered query has an answer

  /** A total preorder: what an ORDER BY compares with. */
  ghost predicate TotalPreorder<T(!new)>(leq: (T, T) -> bool) {
    && (forall x, y :: leq(x, y) || leq(y, x))
    && (forall x, y, z :: leq(x, y) && leq(y, z) ==> leq(x, z))
  }

  ghost predicate Symmetric<T(!new)>(differ: (T, T) -> bool) {
    forall x, y :: differ(x, y) ==> differ(y, x)
  }

  /** answer holds the rows of s, each once, in an order that leq allows. */
  ghost predicate Ordered<T(!new)>(answer: seq<T>, s: seq<T>, leq: (T, T) -> bool, differ: (T, T) -> bool) {
    && (forall x :: x in answer ==> x in s)
    && (forall x :: x in s ==> x in answer)
    && Increasing(answer, leq) && Increasing(answer, differ)
  }

  lemma {:induction false} CanBeOrdered<T(!new)>(s: seq<T>, leq: (T, T) -> bool, differ: (T, T) -> bool)
    returns (answer: seq<T>)
    requires TotalPreorder(leq) && Symmetric(differ) && Increasing(s, differ)
    ensures Ordered(answer, s, leq, differ)
  {
    if s == [] {
      return [];
    }
    assert s == [s[0]] + s[1..];
    var rest := CanBeOrdered(s[1..], leq, differ);
    forall x | x in rest ensures differ(s[0], x) {
      var k :| 0 <= k < |s[1..]| && s[1..][k] == x;
      assert s[k + 1] == x;
    }
    answer := Insert(s[0], rest, leq, differ);
  }

  lemma {:induction false} Insert<T(!new)>(x: T, rest: seq<T>, leq: (T, T) -> bool, differ: (T, T) -> bool)
    returns (answer: seq<T>)
    requires TotalPreorder(leq) && Symmetric(differ)
    requires Increasing(rest, leq) && Increasing(rest, differ) && forall y :: y in rest ==> differ(x, y)
    ensures Ordered(answer, [x] + rest, leq, differ)
  {
    if rest == [] || leq(x, rest[0]) {
      answer := [x] + rest;
      return;
    }
    assert rest == [rest[0]] + rest[1..];
    var tail := Insert(x, rest[1..], leq, differ);
    answer := [rest[0]] + tail;
    forall j | 0 <= j < |tail| ensures leq(rest[0], tail[j]) && differ(rest[0], tail[j]) {
      assert tail[j] in [x] + rest[1..];
    }
  }
}
