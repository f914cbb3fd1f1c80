/** sort.SliceStable: a stable insertion sort over an arbitrary comparator. */
module StableSort {

  /** `x` goes in front of the trailing elements it is less than. */
  function Insert<T>(s: seq<T>, x: T, less: (T, T) -> bool): (r: seq<T>)
    ensures multiset(r) == multiset(s) + multiset{x}
  {
    if s == [] || !less(x, s[|s| - 1]) then s + [x]
    else
      var front := s[..|s| - 1];
      assert s == front + [s[|s| - 1]];
      Insert(front, x, less) + [s[|s| - 1]]
  }

  function Sort<T>(s: seq<T>, less: (T, T) -> bool): (r: seq<T>)
    ensures multiset(r) == multiset(s)
  {
    if s == [] then []
    else
      assert s == s[..|s| - 1] + [s[|s| - 1]];
      Insert(Sort(s[..|s| - 1], less), s[|s| - 1], less)
  }

  ghost predicate Sorted<T(!new)>(s: seq<T>, less: (T, T) -> bool) {
    forall i, j :: 0 <= i < j < |s| ==> !less(s[j], s[i])
  }

  /** The comparator orders the elements of `s` consistently. */
  ghost predicate Consistent<T(!new)>(s: seq<T>, less: (T, T) -> bool) {
    && (forall x, y :: x in s && y in s && less(x, y) ==> !less(y, x))
    && (forall x, y, z :: x in s && y in s && z in s && !less(y, x) && !less(z, y) ==> !less(z, x))
  }

  lemma {:induction false} InsertSorted<T(!new)>(s: seq<T>, x: T, less: (T, T) -> bool)
    requires Sorted(s, less) && Consistent(s + [x], less)
    ensures Sorted(Insert(s, x, less), less)
  {
    if s != [] && less(x, s[|s| - 1]) {
      var front, last := s[..|s| - 1], s[|s| - 1];
      assert forall y :: y in front + [x] ==> y in s + [x];
      InsertSorted(front, x, less);
      var r := Insert(front, x, less);
      forall i | 0 <= i < |r| ensures !less(last, r[i]) {
        assert r[i] in multiset(r);
        assert r[i] in front || r[i] == x;
        assert last in s + [x] && x in s + [x];
        if r[i] in front {
          var k :| 0 <= k < |front| && front[k] == r[i];
          assert s[k] == r[i];
        }
      }
    } else if s != [] {
      forall i | 0 <= i < |s| ensures !less(x, s[i]) {
        assert s[i] in s + [x] && s[|s| - 1] in s + [x] && x in s + [x];
        if i < |s| - 1 {
          assert !less(s[|s| - 1], s[i]);
        }
      }
    }
  }

  lemma {:induction false} SortSorted<T(!new)>(s: seq<T>, less: (T, T) -> bool)
    requires Consistent(s, less)
    ensures Sorted(Sort(s, less), less)
    decreases |s|
  {
    if s != [] {
      var front := s[..|s| - 1];
      assert forall y :: y in front ==> y in s;
      SortSorted(front, less);
      var r := Sort(front, less);
      forall y | y in r + [s[|s| - 1]] ensures y in s {
        if y in r {
          assert y in multiset(r);
          assert y in front;
        }
      }
      InsertSorted(r, s[|s| - 1], less);
    }
  }

  ghost predicate Increasing<T>(s: seq<T>, rank: T -> int) {
    forall i, j :: 0 <= i < j < |s| ==> rank(s[i]) < rank(s[j])
  }

  lemma LastIsGreatest<T>(s: seq<T>, rank: T -> int, x: T)
    requires Increasing(s, rank) && x in multiset(s)
    ensures rank(x) <= rank(s[|s| - 1])
    ensures rank(x) == rank(s[|s| - 1]) ==> x == s[|s| - 1]
  {
    var i :| 0 <= i < |s| && s[i] == x;
  }

  lemma LastsAgree<T>(a: seq<T>, b: seq<T>, rank: T -> int)
    requires multiset(a) == multiset(b) && a != []
    requires Increasing(a, rank) && Increasing(b, rank)
    ensures b != [] && a[|a| - 1] == b[|b| - 1]
  {
    assert |multiset(a)| == |a| && |multiset(b)| == |b|;
    var x, y := a[|a| - 1], b[|b| - 1];
    assert x in multiset(b) && y in multiset(a);
    LastIsGreatest(a, rank, y);
    LastIsGreatest(b, rank, x);
  }

  lemma FrontIsIncreasing<T>(a: seq<T>, rank: T -> int)
    requires a != [] && Increasing(a, rank)
    ensures Increasing(a[..|a| - 1], rank)
  {
  }

  lemma FrontCounts<T>(a: seq<T>)
    requires a != []
    ensures multiset(a[..|a| - 1]) == multiset(a) - multiset{a[|a| - 1]}
  {
    assert a == a[..|a| - 1] + [a[|a| - 1]];
  }

  /** Two arrangements of the same elements by strictly increasing rank are the same. */
  lemma {:induction false} RankedIsUnique<T>(a: seq<T>, b: seq<T>, rank: T -> int)
    requires multiset(a) == multiset(b)
    requires Increasing(a, rank) && Increasing(b, rank)
    ensures a == b
    decreases |a|
  {
    hide Increasing;
    if a == [] {
      assert |multiset(b)| == |b|;
    } else {
      LastsAgree(a, b, rank);
      FrontIsIncreasing(a, rank);
      FrontIsIncreasing(b, rank);
      FrontCounts(a);
      FrontCounts(b);
      RankedIsUnique(a[..|a| - 1], b[..|b| - 1], rank);
      assert a == a[..|a| - 1] + [a[|a| - 1]];
      assert b == b[..|b| - 1] + [b[|b| - 1]];
    }
  }
}
