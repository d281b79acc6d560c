/**
  * Kotlin's `sortedWith` / `sortedBy` / `sortedByDescending`: a stable sort
  * under a comparator.  A comparator is given here by its strict part `lt`
  * ("compares below"); elements neither below the other compare equal and
  * keep their input order.
  */
module Sorting {
  import opened Seqs

  /** `lt` is the strict part of a comparator consistent with a total preorder. */
  ghost predicate StrictWeakOrder<T(!new)>(lt: (T, T) -> bool) {
    && (forall x :: !lt(x, x))
    && (forall x, y, z :: lt(x, y) && lt(y, z) ==> lt(x, z))
    && (forall x, y, z :: !lt(x, y) && !lt(y, z) ==> !lt(x, z))
  }

  /** `x` and `y` compare equal. */
  predicate Tied<T>(lt: (T, T) -> bool, x: T, y: T) {
    !lt(x, y) && !lt(y, x)
  }

  /** No element is below one that precedes it. */
  ghost predicate SortedBy<T>(s: seq<T>, lt: (T, T) -> bool) {
    forall i, j :: 0 <= i < j < |s| ==> !lt(s[j], s[i])
  }

  /** Inserts `x` in front of the first element not below it. */
  function Insert<T>(x: T, s: seq<T>, lt: (T, T) -> bool): (r: seq<T>)
    ensures multiset(r) == multiset(s) + multiset{x}
  {
    if s == [] || !lt(s[0], x) then [x] + s
    else
      assert s == [s[0]] + s[1..];
      [s[0]] + Insert(x, s[1..], lt)
  }

  /** A stable sort: insertion from the back, each element placed in front of
      everything it does not compare above. */
  function SortBy<T>(s: seq<T>, lt: (T, T) -> bool): (r: seq<T>)
    ensures multiset(r) == multiset(s)
  {
    if s == [] then []
    else
      assert s == [s[0]] + s[1..];
      Insert(s[0], SortBy(s[1..], lt), lt)
  }

  lemma {:induction false} InsertSorted<T(!new)>(x: T, s: seq<T>, lt: (T, T) -> bool)
    requires StrictWeakOrder(lt) && SortedBy(s, lt)
    ensures SortedBy(Insert(x, s, lt), lt)
  {
    if s == [] || !lt(s[0], x) {
      var r := [x] + s;
      forall i, j | 0 <= i < j < |r| ensures !lt(r[j], r[i]) {
        if i == 0 {
          assert r[j] == s[j - 1];
          if j > 1 {
            assert !lt(s[j - 1], s[0]);
          }
        }
      }
    } else {
      var t := Insert(x, s[1..], lt);
      InsertSorted(x, s[1..], lt);
      var r := [s[0]] + t;
      forall i, j | 0 <= i < j < |r| ensures !lt(r[j], r[i]) {
        if i == 0 {
          assert r[j] in multiset(t);
          assert r[j] == x || r[j] in s[1..];
        }
      }
    }
  }

  /** `SortBy` orders its result. */
  lemma {:induction false} SortBySorted<T(!new)>(s: seq<T>, lt: (T, T) -> bool)
    requires StrictWeakOrder(lt)
    ensures SortedBy(SortBy(s, lt), lt)
  {
    if s != [] {
      SortBySorted(s[1..], lt);
      InsertSorted(s[0], SortBy(s[1..], lt), lt);
    }
  }

  lemma {:induction false} InsertStable<T(!new)>(x: T, s: seq<T>, lt: (T, T) -> bool, a: T)
    requires StrictWeakOrder(lt)
    ensures Filter(Insert(x, s, lt), y => Tied(lt, y, a)) ==
            (if Tied(lt, x, a) then [x] else []) + Filter(s, y => Tied(lt, y, a))
  {
    if s == [] || !lt(s[0], x) {
      assert ([x] + s)[1..] == s;
    } else {
      InsertStable(x, s[1..], lt, a);
      assert ([s[0]] + Insert(x, s[1..], lt))[1..] == Insert(x, s[1..], lt);
    }
  }

  /** `SortBy` is stable: among elements that compare equal to any `a`, the
      input order survives. */
  lemma {:induction false} SortByStable<T(!new)>(s: seq<T>, lt: (T, T) -> bool, a: T)
    requires StrictWeakOrder(lt)
    ensures Filter(SortBy(s, lt), y => Tied(lt, y, a)) == Filter(s, y => Tied(lt, y, a))
  {
    if s != [] {
      SortByStable(s[1..], lt, a);
      InsertStable(s[0], SortBy(s[1..], lt), lt, a);
    }
  }
}
