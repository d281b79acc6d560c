/**
  * Sequence helpers shared by the model: Kotlin's `filter`, the insertion
  * order of a `LinkedHashSet` (a duplicate-free sequence), `sumOf`.
  */
module Seqs {

  /** A Kotlin nullable value. */
  datatype Option<T> = None | Some(value: T)

  /** `r` is `s` with some elements dropped, the rest in their order. */
  predicate IsSubseq<T(==)>(r: seq<T>, s: seq<T>)
    decreases |s|
  {
    if r == [] then true
    else if s == [] then false
    else if r[0] == s[0] then IsSubseq(r[1..], s[1..])
    else IsSubseq(r, s[1..])
  }

  /** Kotlin `filter`: the elements of `s` that satisfy `p`, in order. */
  function Filter<T(!new)>(s: seq<T>, p: T -> bool): (r: seq<T>)
    ensures |r| <= |s|
    ensures forall x :: x in r <==> x in s && p(x)
    ensures forall i :: 0 <= i < |r| ==> p(r[i])
  {
    if s == [] then []
    else if p(s[0]) then [s[0]] + Filter(s[1..], p)
    else Filter(s[1..], p)
  }

  /** `Filter` keeps the order of `s`. */
  lemma {:induction false} FilterIsSubseq<T(!new)>(s: seq<T>, p: T -> bool)
    ensures IsSubseq(Filter(s, p), s)
  {
    if s != [] {
      FilterIsSubseq(s[1..], p);
      if !p(s[0]) {
        SubseqDropHead(Filter(s[1..], p), s);
      }
    }
  }

  /** A subsequence of `s[1..]` is a subsequence of `s`. */
  lemma {:induction false} SubseqDropHead<T(!new)>(r: seq<T>, s: seq<T>)
    requires s != [] && IsSubseq(r, s[1..])
    ensures IsSubseq(r, s)
    decreases |s|, 0
  {
    if r != [] && r[0] == s[0] {
      SubseqTail(r, s[1..]);
    }
  }

  /** Dropping the first element of a subsequence keeps it a subsequence. */
  lemma {:induction false} SubseqTail<T(!new)>(r: seq<T>, t: seq<T>)
    requires r != [] && IsSubseq(r, t)
    ensures IsSubseq(r[1..], t)
    decreases |t|, 1
  {
    if r[0] == t[0] {
      SubseqDropHead(r[1..], t);
    } else {
      SubseqTail(r, t[1..]);
      SubseqDropHead(r[1..], t);
    }
  }

  /** A subsequence keeps only members of the original. */
  lemma {:induction false} SubseqMembers<T(!new)>(r: seq<T>, s: seq<T>)
    requires IsSubseq(r, s)
    ensures forall x :: x in r ==> x in s
    decreases |s|
  {
    if r != [] {
      if r[0] == s[0] {
        SubseqMembers(r[1..], s[1..]);
        assert forall x :: x in r ==> x == r[0] || x in r[1..];
      } else {
        SubseqMembers(r, s[1..]);
      }
    }
  }

  /** Being a subsequence is transitive. */
  lemma {:induction false} SubseqTrans<T(!new)>(a: seq<T>, b: seq<T>, c: seq<T>)
    requires IsSubseq(a, b) && IsSubseq(b, c)
    ensures IsSubseq(a, c)
    decreases |c|
  {
    if a != [] {
      if b[0] == c[0] {
        if a[0] == b[0] {
          SubseqTrans(a[1..], b[1..], c[1..]);
        } else {
          SubseqTrans(a, b[1..], c[1..]);
        }
      } else {
        SubseqTrans(a, b, c[1..]);
        if a[0] == c[0] {
          SubseqTail(a, c[1..]);
        }
      }
    }
  }

  /** A subsequence of a duplicate-free sequence is duplicate-free. */
  lemma {:induction false} SubseqNoDup<T(!new)>(r: seq<T>, s: seq<T>)
    requires IsSubseq(r, s) && NoDup(s)
    ensures NoDup(r)
    decreases |s|
  {
    if r != [] {
      assert NoDup(s[1..]) by {
        forall i, j | 0 <= i < j < |s| - 1 ensures s[1..][i] != s[1..][j] {
          assert s[1..][i] == s[i + 1] && s[1..][j] == s[j + 1];
        }
      }
      if r[0] == s[0] {
        SubseqNoDup(r[1..], s[1..]);
        SubseqMembers(r[1..], s[1..]);
        forall j | 0 < j < |r| ensures r[0] != r[j] {
          assert r[j] == r[1..][j - 1];
          assert r[j] in s[1..];
        }
      } else {
        SubseqNoDup(r, s[1..]);
      }
    }
  }

  /** Filtering twice is filtering by the conjunction. */
  lemma {:induction false} FilterFilter<T(!new)>(s: seq<T>, p: T -> bool, q: T -> bool)
    ensures Filter(Filter(s, p), q) == Filter(s, x => p(x) && q(x))
  {
    if s != [] {
      FilterFilter(s[1..], p, q);
    }
  }

  /** `Filter` of a list grown by one element. */
  lemma {:induction false} FilterSnoc<T(!new)>(s: seq<T>, x: T, p: T -> bool)
    ensures Filter(s + [x], p) == Filter(s, p) + (if p(x) then [x] else [])
  {
    if s == [] {
      assert [] + [x] == [x];
      assert [x][1..] == [];
    } else {
      assert (s + [x])[1..] == s[1..] + [x];
      FilterSnoc(s[1..], x, p);
    }
  }

  /** Filtering by predicates that agree on `s` gives the same result. */
  lemma {:induction false} FilterCongruent<T(!new)>(s: seq<T>, p: T -> bool, q: T -> bool)
    requires forall x :: x in s ==> p(x) == q(x)
    ensures Filter(s, p) == Filter(s, q)
  {
    if s != [] {
      FilterCongruent(s[1..], p, q);
    }
  }

  /** No element occurs twice. */
  predicate NoDup<T(==)>(s: seq<T>) {
    forall i, j :: 0 <= i < j < |s| ==> s[i] != s[j]
  }

  /** A non-empty sequence is duplicate-free exactly when its tail is and
      its head does not recur. */
  lemma NoDupCons<T>(s: seq<T>)
    requires s != []
    ensures NoDup(s) <==> NoDup(s[1..]) && s[0] !in s[1..]
  {
    if NoDup(s[1..]) && s[0] !in s[1..] {
      forall i, j | 0 <= i < j < |s| ensures s[i] != s[j] {
        assert s[j] == s[1..][j - 1];
        if i > 0 {
          assert s[i] == s[1..][i - 1];
        }
      }
    }
    if NoDup(s) {
      forall i, j | 0 <= i < j < |s| - 1 ensures s[1..][i] != s[1..][j] {
        assert s[1..][i] == s[i + 1] && s[1..][j] == s[j + 1];
      }
    }
  }

  /** Duplicate-free means every element is counted at most once. */
  lemma {:induction false} NoDupCount<T>(s: seq<T>)
    ensures NoDup(s) <==> forall x :: multiset(s)[x] <= 1
  {
    if s != [] {
      var t := s[1..];
      assert s == [s[0]] + t;
      NoDupCount(t);
      NoDupCons(s);
      assert multiset(s) == multiset{s[0]} + multiset(t);
      if !NoDup(t) {
        var x :| multiset(t)[x] > 1;
        assert multiset(s)[x] > 1;
      } else if s[0] in t {
        assert multiset(s)[s[0]] > 1;
      }
    }
  }

  /** Reordering keeps a sequence duplicate-free. */
  lemma PermutationNoDup<T>(a: seq<T>, b: seq<T>)
    requires NoDup(a) && multiset(a) == multiset(b)
    ensures NoDup(b)
  {
    NoDupCount(a);
    NoDupCount(b);
  }

  /** `(a + b) + c == a + (b + c)`, spelled out for the solver. */
  lemma AppendAssoc<T>(a: seq<T>, b: seq<T>, c: seq<T>)
    ensures (a + b) + c == a + (b + c)
  {
  }

  /** Filtering a duplicate-free sequence leaves it duplicate-free. */
  lemma {:induction false} FilterNoDup<T(!new)>(s: seq<T>, p: T -> bool)
    requires NoDup(s)
    ensures NoDup(Filter(s, p))
  {
    if s != [] {
      FilterNoDup(s[1..], p);
    }
  }

  /** `LinkedHashSet.addAll`: appends, in order, each element of `s` that is
      not yet present in `acc`. */
  function AddAll<T(==,!new)>(acc: seq<T>, s: seq<T>): (r: seq<T>)
    requires NoDup(acc)
    ensures NoDup(r)
    ensures |acc| <= |r| && r[..|acc|] == acc
    ensures forall x :: x in r <==> x in acc || x in s
    decreases |s|
  {
    if s == [] then acc
    else if s[0] in acc then AddAll(acc, s[1..])
    else AddAll(acc + [s[0]], s[1..])
  }

  /** The distinct elements of `s` in order of first appearance
      (Kotlin `toSet()` / `toList()` on a `LinkedHashSet`). */
  function Distinct<T(==,!new)>(s: seq<T>): seq<T>
  {
    AddAll([], s)
  }

  /** The first appearance of every element keeps its relative order:
      `x` comes before `y` in `Distinct(s)` exactly when the first `x` in `s`
      comes before the first `y`. */
  lemma {:induction false} DistinctFirstAppearance<T(!new)>(s: seq<T>, i: nat, j: nat)
    requires i < j < |s|
    requires s[i] !in s[..i] && s[j] !in s[..j]
    ensures s[i] in Distinct(s) && s[j] in Distinct(s)
    ensures exists a, b :: 0 <= a < b < |Distinct(s)| && Distinct(s)[a] == s[i] && Distinct(s)[b] == s[j]
  {
    var acc := AddAll([], s[..i]);
    DistinctAt(s, i);
    var acc' := acc + [s[i]];
    assert acc'[|acc|] == s[i];
    var d := AddAll(acc', s[i + 1..]);
    assert d[..|acc'|] == acc';
    assert d[|acc|] == s[i];
    // s[j] is not among the first |acc'| elements of d, yet it is in d.
    assert s[j] in s[i + 1..] by {
      assert s[i + 1..][j - i - 1] == s[j];
    }
    assert s[j] !in acc' by {
      assert s[j] != s[i] by {
        assert s[..j][i] == s[i];
      }
    }
    assert s[j] in d;
    var b :| 0 <= b < |d| && d[b] == s[j];
    assert b >= |acc'|;
    assert Distinct(s) == d;
  }

  /** The first appearance of `s[i]` is added right after the distinct
      elements before it. */
  lemma DistinctAt<T(!new)>(s: seq<T>, i: nat)
    requires i < |s| && s[i] !in s[..i]
    ensures s[i] !in AddAll([], s[..i])
    ensures Distinct(s) == AddAll(AddAll([], s[..i]) + [s[i]], s[i + 1..])
  {
    var pre, t := s[..i], s[i..];
    AddAllSplit([], pre, t);
    assert pre + t == s;
    var acc := AddAll([], pre);
    assert s[i] !in acc by {
      assert forall x :: x in acc ==> x in pre;
    }
    assert t[0] == s[i] && t[1..] == s[i + 1..];
    AddAllFresh(acc, t);
  }

  /** A fresh first element is appended. */
  lemma AddAllFresh<T(!new)>(acc: seq<T>, t: seq<T>)
    requires NoDup(acc) && t != [] && t[0] !in acc
    ensures AddAll(acc, t) == AddAll(acc + [t[0]], t[1..])
  {
  }

  /** `AddAll` over a concatenation is two `AddAll`s in a row. */
  lemma {:induction false} AddAllSplit<T(!new)>(acc: seq<T>, s: seq<T>, t: seq<T>)
    requires NoDup(acc)
    ensures AddAll(acc, s + t) == AddAll(AddAll(acc, s), t)
    decreases |s|
  {
    if s == [] {
      assert s + t == t;
    } else {
      assert (s + t)[0] == s[0] && (s + t)[1..] == s[1..] + t;
      if s[0] in acc {
        AddAllSplit(acc, s[1..], t);
      } else {
        AddAllSplit(acc + [s[0]], s[1..], t);
      }
    }
  }

  /** Kotlin `sumOf` over integers. */
  function Sum(s: seq<int>): int {
    if s == [] then 0 else s[0] + Sum(s[1..])
  }

  /** Sums of positive terms are at least the number of terms. */
  lemma {:induction false} SumAtLeastLength(s: seq<int>)
    requires forall i :: 0 <= i < |s| ==> s[i] >= 1
    ensures Sum(s) >= |s|
  {
    if s != [] {
      SumAtLeastLength(s[1..]);
    }
  }

  /** `Sum` distributes over concatenation. */
  lemma {:induction false} SumAppend(s: seq<int>, t: seq<int>)
    ensures Sum(s + t) == Sum(s) + Sum(t)
  {
    if s == [] {
      assert s + t == t;
    } else {
      assert (s + t)[1..] == s[1..] + t;
      SumAppend(s[1..], t);
    }
  }

  /** `0 until n` as a sequence. */
  function Range(n: nat): (r: seq<nat>)
    ensures |r| == n
    ensures forall i :: 0 <= i < n ==> r[i] == i
  {
    if n == 0 then [] else Range(n - 1) + [n - 1]
  }

  /** A subset is no larger. */
  lemma {:induction false} SubsetNotLarger<T>(a: set<T>, b: set<T>)
    requires a <= b
    ensures |a| <= |b|
    decreases |b|
  {
    if a != {} {
      var x :| x in a;
      SubsetNotLarger(a - {x}, b - {x});
    }
  }

  /** `associateBy(key)`: one row per key, a later row replacing an earlier
      one with the same key. */
  function AssociateBy<T(==), K>(rows: seq<T>, key: T -> K): (m: map<K, T>)
    ensures forall i :: 0 <= i < |rows| ==> key(rows[i]) in m
    ensures forall k :: k in m ==> key(m[k]) == k && m[k] in rows
  {
    if rows == [] then map[]
    else
      var last := rows[|rows| - 1];
      var m := AssociateBy(rows[..|rows| - 1], key)[key(last) := last];
      assert forall k :: k in m && k != key(last) ==> m[k] in rows[..|rows| - 1];
      m
  }

  /** On duplicate keys the last row wins. */
  lemma {:induction false} AssociateByLastWins<T, K>(rows: seq<T>, key: T -> K, i: nat)
    requires i < |rows|
    requires forall j :: i < j < |rows| ==> key(rows[j]) != key(rows[i])
    ensures AssociateBy(rows, key)[key(rows[i])] == rows[i]
  {
    if i < |rows| - 1 {
      AssociateByLastWins(rows[..|rows| - 1], key, i);
    }
  }
}
