/** Python's `list.sort()` on pairs of integers and `list.sort(key=...)` with a
    pair-valued key (backend/db/sql_db.py), modelled as a stable insertion sort:
    an element goes after every element whose key is not greater. */
module Sorting {

  /** Python's order on tuples of two integers. */
  predicate Le(a: (int, int), b: (int, int)) {
    a.0 < b.0 || (a.0 == b.0 && a.1 <= b.1)
  }

  ghost predicate SortedBy<T>(xs: seq<T>, key: T -> (int, int)) {
    forall i, j :: 0 <= i < j < |xs| ==> Le(key(xs[i]), key(xs[j]))
  }

  /** Appending an element no smaller than any element keeps a sequence sorted. */
  lemma SortedAppend<T>(ys: seq<T>, x: T, key: T -> (int, int))
    requires SortedBy(ys, key)
    requires forall i :: 0 <= i < |ys| ==> Le(key(ys[i]), key(x))
    ensures SortedBy(ys + [x], key)
  {
    var r := ys + [x];
    forall i, j | 0 <= i < j < |r| ensures Le(key(r[i]), key(r[j])) {
      assert r[i] == ys[i];
      if j < |ys| {
        assert r[j] == ys[j];
      }
    }
  }

  /** `x` placed after the last element whose key is not greater. */
  function Insert<T>(ys: seq<T>, x: T, key: T -> (int, int)): seq<T> {
    if |ys| == 0 then [x]
    else if Le(key(ys[|ys| - 1]), key(x)) then ys + [x]
    else Insert(ys[..|ys| - 1], x, key) + [ys[|ys| - 1]]
  }

  /** Inserting into a sorted sequence yields a sorted sequence holding one
      more `x`. */
  lemma {:induction false} InsertSorted<T>(ys: seq<T>, x: T, key: T -> (int, int))
    requires SortedBy(ys, key)
    ensures SortedBy(Insert(ys, x, key), key)
    ensures multiset(Insert(ys, x, key)) == multiset(ys) + multiset{x}
    decreases |ys|
  {
    if |ys| > 0 {
      var init, last := ys[..|ys| - 1], ys[|ys| - 1];
      assert ys == init + [last];
      if Le(key(last), key(x)) {
        assert forall i :: 0 <= i < |ys| ==> Le(key(ys[i]), key(x)) by {
          forall i | 0 <= i < |ys| ensures Le(key(ys[i]), key(x)) {
            if i < |ys| - 1 {
              assert Le(key(ys[i]), key(last));
            }
          }
        }
        SortedAppend(ys, x, key);
      } else {
        assert SortedBy(init, key) by {
          forall i, j | 0 <= i < j < |init| ensures Le(key(init[i]), key(init[j])) {
            assert init[i] == ys[i] && init[j] == ys[j];
          }
        }
        InsertSorted(init, x, key);
        var r := Insert(init, x, key);
        assert forall i :: 0 <= i < |init| ==> Le(key(init[i]), key(last)) by {
          forall i | 0 <= i < |init| ensures Le(key(init[i]), key(last)) {
            assert init[i] == ys[i];
          }
        }
        PermutationBounded(r, init, x, key(last), key);
        SortedAppend(r, last, key);
      }
    }
  }

  /** A permutation of `ys` plus `x` is bounded by what bounds them all. */
  lemma PermutationBounded<T>(r: seq<T>, ys: seq<T>, x: T, top: (int, int), key: T -> (int, int))
    requires multiset(r) == multiset(ys) + multiset{x}
    requires forall i :: 0 <= i < |ys| ==> Le(key(ys[i]), top)
    requires Le(key(x), top)
    ensures forall i :: 0 <= i < |r| ==> Le(key(r[i]), top)
  {
    forall i | 0 <= i < |r| ensures Le(key(r[i]), top) {
      assert r[i] in multiset(r);
      if r[i] != x {
        assert r[i] in multiset(ys);
        var k :| 0 <= k < |ys| && ys[k] == r[i];
      }
    }
  }

  /** Insertion sort: each element inserted, in order, into the sorted prefix. */
  function SortBy<T>(xs: seq<T>, key: T -> (int, int)): seq<T> {
    if |xs| == 0 then []
    else Insert(SortBy(xs[..|xs| - 1], key), xs[|xs| - 1], key)
  }

  /** The result is sorted and a permutation of the input. */
  lemma {:induction false} SortBySorted<T>(xs: seq<T>, key: T -> (int, int))
    ensures SortedBy(SortBy(xs, key), key)
    ensures multiset(SortBy(xs, key)) == multiset(xs)
    ensures |SortBy(xs, key)| == |xs|
    decreases |xs|
  {
    if |xs| > 0 {
      var init := xs[..|xs| - 1];
      assert xs == init + [xs[|xs| - 1]];
      SortBySorted(init, key);
      InsertSorted(SortBy(init, key), xs[|xs| - 1], key);
      var r := SortBy(xs, key);
      assert |r| == |multiset(r)|;
    }
  }
}
