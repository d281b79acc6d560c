/**
  * The decomposition graph that both closure walks follow: a corpus symbol
  * leads to each of its non-blank direct components.  A symbol that is not in
  * the corpus, or lists no components, leads nowhere (it is a primitive).
  *
  * `Reach(g, seeds)` is the least set that contains the seeds and is closed
  * under that step; it is the reference against which the recursive walks
  * (`expand` in KanjiLogic.kt, `collectComponents` in ListComponents.kts)
  * are proved.
  */
module Decomposition {
  import opened Text

  /** Symbol to direct components, one entry per corpus symbol. */
  type Decomp = map<string, seq<string>>

  /** The non-blank strings of a list, as a set. */
  function NonBlank(xs: seq<string>): (r: set<string>)
    ensures forall x :: x in r <==> x in xs && !IsBlank(x)
  {
    set x | x in xs && !IsBlank(x)
  }

  /** `NonBlank` of a list grown by one element. */
  lemma NonBlankSnoc(xs: seq<string>, x: string)
    ensures NonBlank(xs + [x]) == NonBlank(xs) + (if IsBlank(x) then {} else {x})
  {
  }

  /** The symbols a walk recurses into from `s`. */
  function Succ(g: Decomp, s: string): set<string> {
    if s in g then NonBlank(g[s]) else {}
  }

  /** Every non-blank direct component listed anywhere in `g`. */
  function AllComponents(g: Decomp): set<string> {
    set s, c | s in g && c in g[s] && !IsBlank(c) :: c
  }

  /** A set no step leaves. */
  predicate Closed(g: Decomp, S: set<string>) {
    forall s :: s in S ==> Succ(g, s) <= S
  }

  /** One step: `S` together with the successors of its members. */
  function Step(g: Decomp, S: set<string>): (r: set<string>)
    ensures S <= r
    ensures r - S <= AllComponents(g)
  {
    S + (set s, c | s in S && c in Succ(g, s) :: c)
  }

  lemma ProperSubsetSmaller(A: set<string>, B: set<string>)
    requires A < B
    ensures |A| < |B|
  {
    var d := B - A;
    assert B == A + d;
    var x :| x in d;
  }

  /** The least closed superset of `S`, by iterating `Step` to a fixpoint. */
  function Reach(g: Decomp, S: set<string>): set<string>
    decreases |AllComponents(g) - S|
  {
    var next := Step(g, S);
    if next == S then S
    else
      ProperSubsetSmaller(AllComponents(g) - next, AllComponents(g) - S);
      Reach(g, next)
  }

  /** The seeds are reached, and the reached set is closed. */
  lemma {:induction false} ReachContainsAndCloses(g: Decomp, S: set<string>)
    ensures S <= Reach(g, S)
    ensures Closed(g, Reach(g, S))
    decreases |AllComponents(g) - S|
  {
    var next := Step(g, S);
    if next == S {
      forall s | s in S ensures Succ(g, s) <= S {
        forall c | c in Succ(g, s) ensures c in S {
          assert c in next;
        }
      }
    } else {
      ProperSubsetSmaller(AllComponents(g) - next, AllComponents(g) - S);
      ReachContainsAndCloses(g, next);
    }
  }

  /** `Reach` is the least closed superset: any closed set holding the seeds
      holds everything reached. */
  lemma {:induction false} ReachLeast(g: Decomp, S: set<string>, T: set<string>)
    requires S <= T && Closed(g, T)
    ensures Reach(g, S) <= T
    decreases |AllComponents(g) - S|
  {
    var next := Step(g, S);
    if next != S {
      ProperSubsetSmaller(AllComponents(g) - next, AllComponents(g) - S);
      ReachLeast(g, next, T);
    }
  }

  /** More seeds reach at least as much. */
  lemma ReachMonotone(g: Decomp, S1: set<string>, S2: set<string>)
    requires S1 <= S2
    ensures Reach(g, S1) <= Reach(g, S2)
  {
    ReachContainsAndCloses(g, S2);
    ReachLeast(g, S1, Reach(g, S2));
  }

  /** A closed set reaches only itself. */
  lemma ReachOfClosed(g: Decomp, S: set<string>)
    requires Closed(g, S)
    ensures Reach(g, S) == S
  {
    ReachContainsAndCloses(g, S);
    ReachLeast(g, S, S);
  }
  /** The graph with every edge into `A` removed. */
  function Avoiding(g: Decomp, A: set<string>): (r: Decomp)
    ensures forall s :: Succ(r, s) == Succ(g, s) - A
  {
    var r := map k | k in g :: FilterOut(g[k], A);
    assert forall s :: s in g ==> NonBlank(r[s]) == NonBlank(g[s]) - A;
    r
  }

  /** The elements of `xs` outside `A`, in order. */
  function FilterOut(xs: seq<string>, A: set<string>): (r: seq<string>)
    ensures forall x :: x in r <==> x in xs && x !in A
  {
    if xs == [] then []
    else (if xs[0] in A then [] else [xs[0]]) + FilterOut(xs[1..], A)
  }

  /** Fewer edges reach no more. */
  lemma ReachFewerEdges(g1: Decomp, g2: Decomp, S: set<string>)
    requires forall s :: Succ(g1, s) <= Succ(g2, s)
    ensures Reach(g1, S) <= Reach(g2, S)
  {
    ReachContainsAndCloses(g2, S);
    ReachLeast(g1, S, Reach(g2, S));
  }

  /** Whatever a reached symbol reaches is reached. */
  lemma ReachFromReached(g: Decomp, S: set<string>, c: string)
    requires c in Reach(g, S)
    ensures Reach(g, {c}) <= Reach(g, S)
  {
    ReachContainsAndCloses(g, S);
    ReachLeast(g, {c}, Reach(g, S));
  }
}
