/** Python's `list.sort(key=...)` and `sorted(...)`: a stable sort,
    written as insertion sort over a "comes before" relation. */
module Sorting {

  /** The conditions a "comes before" relation must meet for sorting by it
      to produce an ordered list. A relation of the form `key(a) < key(b)`
      meets them. */
  ghost predicate StrictWeakOrder<T(!new)>(before: (T, T) -> bool)
  {
    && (forall a :: !before(a, a))
    && (forall a, b, c :: before(a, b) && before(b, c) ==> before(a, c))
    && (forall a, b, c :: !before(a, b) && !before(b, c) ==> !before(a, c))
  }

  /** No element comes before an element to its left. */
  ghost predicate Sorted<T>(s: seq<T>, before: (T, T) -> bool)
  {
    forall i, j :: 0 <= i < j < |s| ==> !before(s[j], s[i])
  }

  /** Places `x` in front of the first element it does not come after. */
  function Insert<T>(x: T, s: seq<T>, before: (T, T) -> bool): (r: seq<T>)
    ensures |r| == |s| + 1
    ensures multiset(r) == multiset(s) + multiset{x}
  {
    if s == [] || !before(s[0], x) then [x] + s
    else
      var r := [s[0]] + Insert(x, s[1..], before);
      assert s == [s[0]] + s[1..];
      r
  }

  /** Stable sort: equal elements keep their order. */
  function SortBy<T>(s: seq<T>, before: (T, T) -> bool): (r: seq<T>)
    ensures |r| == |s|
    ensures multiset(r) == multiset(s)
  {
    if s == [] then []
    else
      assert s == [s[0]] + s[1..];
      Insert(s[0], SortBy(s[1..], before), before)
  }

  lemma {:induction false} InsertSorted<T(!new)>(x: T, s: seq<T>, before: (T, T) -> bool)
    requires StrictWeakOrder(before)
    requires Sorted(s, before)
    ensures Sorted(Insert(x, s, before), before)
  {
    var r := Insert(x, s, before);
    if s == [] || !before(s[0], x) {
      forall i, j | 0 <= i < j < |r| ensures !before(r[j], r[i]) {
        if i == 0 {
          assert r[j] == s[j - 1];
          if j - 1 > 0 {
            assert !before(s[j - 1], s[0]);
          }
        } else {
          assert r[i] == s[i - 1] && r[j] == s[j - 1];
        }
      }
    } else {
      var t := Insert(x, s[1..], before);
      InsertSorted(x, s[1..], before);
      assert r == [s[0]] + t;
      forall i, j | 0 <= i < j < |r| ensures !before(r[j], r[i]) {
        if i == 0 {
          assert r[j] in multiset(t);
          assert r[j] in multiset(s[1..]) + multiset{x};
          if r[j] == x {
            assert !before(x, s[0]);
          } else {
            assert r[j] in s[1..];
            var k :| 0 <= k < |s[1..]| && s[1..][k] == r[j];
            assert s[k + 1] == r[j];
          }
        } else {
          assert r[i] == t[i - 1] && r[j] == t[j - 1];
        }
      }
    }
  }

  /** Sorting by a strict weak order yields an ordered permutation. */
  lemma {:induction false} SortBySorted<T(!new)>(s: seq<T>, before: (T, T) -> bool)
    requires StrictWeakOrder(before)
    ensures Sorted(SortBy(s, before), before)
    ensures multiset(SortBy(s, before)) == multiset(s)
  {
    if s != [] {
      SortBySorted(s[1..], before);
      InsertSorted(s[0], SortBy(s[1..], before), before);
    }
  }

  /** Sorting a list that is already in order leaves it unchanged. */
  lemma {:induction false} SortBySortedIsIdentity<T>(s: seq<T>, before: (T, T) -> bool)
    requires Sorted(s, before)
    ensures SortBy(s, before) == s
  {
    if s != [] {
      assert Sorted(s[1..], before) by {
        forall i, j | 0 <= i < j < |s[1..]| ensures !before(s[1..][j], s[1..][i]) {
          assert s[1..][j] == s[j + 1] && s[1..][i] == s[i + 1];
        }
      }
      SortBySortedIsIdentity(s[1..], before);
      if |s| > 1 {
        assert !before(s[1], s[0]);
      }
      assert s == [s[0]] + s[1..];
    }
  }

  /** The elements of `s` that `keep` selects, in order. */
  function Filter<T(!new)>(s: seq<T>, keep: T -> bool): (r: seq<T>)
    ensures |r| <= |s|
    ensures forall x :: x in r <==> x in s && keep(x)
  {
    if s == [] then []
    else
      assert s == [s[0]] + s[1..];
      (if keep(s[0]) then [s[0]] else []) + Filter(s[1..], keep)
  }

  lemma FilterFront<T(!new)>(s: seq<T>, keep: T -> bool)
    requires s != []
    ensures Filter(s, keep) == (if keep(s[0]) then [s[0]] else []) + Filter(s[1..], keep)
  {
  }

  lemma {:induction false} InsertStable<T(!new)>(x: T, s: seq<T>, before: (T, T) -> bool, same: T -> bool)
    requires forall a, b :: same(a) && same(b) ==> !before(a, b)
    ensures Filter(Insert(x, s, before), same) == (if same(x) then [x] else []) + Filter(s, same)
  {
    var r := Insert(x, s, before);
    if s == [] || !before(s[0], x) {
      assert r == [x] + s;
      assert r[0] == x && r[1..] == s;
      FilterFront(r, same);
    } else {
      var t := Insert(x, s[1..], before);
      assert r == [s[0]] + t;
      assert r[0] == s[0] && r[1..] == t;
      FilterFront(r, same);
      FilterFront(s, same);
      InsertStable(x, s[1..], before, same);
      if same(x) {
        assert !same(s[0]);
        assert Filter(r, same) == Filter(t, same);
        assert Filter(s, same) == Filter(s[1..], same);
      } else {
        assert Filter(t, same) == Filter(s[1..], same);
      }
    }
  }

  /** Stability: elements of one equivalence class (no one of them comes
      before another) keep their relative order. */
  lemma {:induction false} SortByStable<T(!new)>(s: seq<T>, before: (T, T) -> bool, same: T -> bool)
    requires forall a, b :: same(a) && same(b) ==> !before(a, b)
    ensures Filter(SortBy(s, before), same) == Filter(s, same)
  {
    if s != [] {
      SortByStable(s[1..], before, same);
      InsertStable(s[0], SortBy(s[1..], before), before, same);
    }
  }
}
