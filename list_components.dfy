/**
  * ListComponents.kts: the components a target list needs, the allowed set
  * once one new component is introduced, and the kanji that allowed set
  * builds.
  *
  * Its walk `collectComponents` differs from `expand` in KanjiLogic.kt: it
  * adds no keywords, it adds a symbol itself only when the symbol is absent
  * or has no components, and it recurses into a component only when adding
  * that component to the accumulator was a fresh insertion.  A component
  * already in the accumulator when the walk starts is therefore never
  * expanded, so the result depends on the accumulator passed in.
  */
module ListComponents {
  import opened Text
  import opened Seqs
  import opened Decomposition

  datatype KanjiInfo = KanjiInfo(kanji: string, keyword: string, jlpt: string, components: seq<string>)

  /** `associateBy { it.kanji }`: one entry per kanji (the same index as
      `KanjiLogic.ByKanji`). */
  function Index(entries: seq<KanjiInfo>): (m: map<string, KanjiInfo>)
    ensures forall i :: 0 <= i < |entries| ==> entries[i].kanji in m
    ensures forall k :: k in m ==> m[k].kanji == k && m[k] in entries
  {
    AssociateBy(entries, (e: KanjiInfo) => e.kanji)
  }

  /** On duplicate kanji the last row wins. */
  lemma IndexLastWins(entries: seq<KanjiInfo>, i: nat)
    requires i < |entries|
    requires forall j :: i < j < |entries| ==> entries[j].kanji != entries[i].kanji
    ensures Index(entries)[entries[i].kanji] == entries[i]
  {
    AssociateByLastWins(entries, (e: KanjiInfo) => e.kanji, i);
  }

  /** The decomposition graph of the indexed data. */
  function Parts(data: map<string, KanjiInfo>): Decomp {
    map k | k in data :: data[k].components
  }

  /** A symbol the walk stops at and adds itself. */
  predicate IsPrimitive(g: Decomp, s: string) {
    s !in g || g[s] == []
  }

  /** What one call adds for `s` itself, its recursive calls aside. */
  function Added(g: Decomp, s: string): (r: set<string>)
    ensures IsPrimitive(g, s) ==> r == {s}
    ensures !IsPrimitive(g, s) ==> r == Succ(g, s)
  {
    if IsPrimitive(g, s) then {s} else NonBlank(g[s])
  }

  /** The union of `Added` over `S`. */
  function AddedOver(g: Decomp, S: set<string>): set<string> {
    set s, x | s in S && x in Added(g, s) :: x
  }

  /** The symbols a walk from `s` expands when it starts with accumulator `A`:
      those reached from `s` without stepping onto a member of `A`. */
  function Expanded(g: Decomp, A: set<string>, s: string): set<string> {
    Reach(Avoiding(g, A), {s})
  }

  /** The accumulator after `collectComponents(s, data, A)`. */
  function Collected(g: Decomp, A: set<string>, s: string): set<string> {
    A + AddedOver(g, Expanded(g, A, s))
  }

  /** `collectComponents(kanji, data, accumulator)`, the accumulator passed
      in and handed back. */
  method CollectComponents(data: map<string, KanjiInfo>, kanji: string, accumulator: set<string>)
    returns (acc: set<string>)
    ensures accumulator <= acc
    ensures Added(Parts(data), kanji) <= acc
    ensures NewlyClosed(Parts(data), accumulator, acc)
    ensures acc == Collected(Parts(data), accumulator, kanji)
    decreases |AllComponents(Parts(data)) - accumulator|, 1
  {
    var info := if kanji in data then Some(data[kanji]) else None;
    if info == None || info.value.components == [] {
      acc := accumulator + {kanji};
      CollectPrimitive(Parts(data), accumulator, kanji);
    } else {
      acc := CollectEach(data, kanji, accumulator);
      CollectedExactly(Parts(data), accumulator, kanji, acc);
    }
  }

  /** The loop of `collectComponents` over the components of a composite. */
  method CollectEach(data: map<string, KanjiInfo>, kanji: string, accumulator: set<string>)
    returns (acc: set<string>)
    requires kanji in data && data[kanji].components != []
    ensures accumulator <= acc
    ensures Added(Parts(data), kanji) <= acc
    ensures NewlyClosed(Parts(data), accumulator, acc)
    ensures acc <= Collected(Parts(data), accumulator, kanji)
    decreases |AllComponents(Parts(data)) - accumulator|, 0
  {
    ghost var g := Parts(data);
    var components := data[kanji].components;
    assert g[kanji] == components;
    acc := accumulator;
    ReachContainsAndCloses(Avoiding(g, accumulator), {kanji});
    for i := 0 to |components|
      invariant accumulator <= acc
      invariant forall j :: 0 <= j < i && !IsBlank(components[j]) ==> components[j] in acc
      invariant NewlyClosed(g, accumulator, acc)
      invariant acc <= Collected(g, accumulator, kanji)
    {
      var component := components[i];
      ghost var prev := acc;
      if !IsBlank(component) && component !in acc {
        ComponentListed(g, kanji, component, accumulator, acc);
        var before := acc + {component};
        acc := CollectComponents(data, component, before);
        InnerStep(g, accumulator, prev, kanji, component, acc);
      }
      assert prev <= acc;
    }
    assert Added(g, kanji) <= acc by {
      forall c | c in Added(g, kanji) ensures c in acc {
        var j :| 0 <= j < |components| && components[j] == c;
      }
    }
  }

  /** A component met during the walk is a listed component the
      accumulator lacks: the walk has that much less left to add. */
  lemma ComponentListed(g: Decomp, s: string, c: string, A: set<string>, B: set<string>)
    requires s in g && c in g[s] && !IsBlank(c) && A <= B && c !in B
    ensures c in Succ(g, s) && c in AllComponents(g)
    ensures |AllComponents(g) - (B + {c})| < |AllComponents(g) - A|
  {
    ProperSubsetSmaller(AllComponents(g) - (B + {c}), AllComponents(g) - A);
  }

  /** Every member of `T` outside `A` has what it adds in `T`. */
  predicate NewlyClosed(g: Decomp, A: set<string>, T: set<string>) {
    forall x :: x in T - A ==> Added(g, x) <= T
  }

  /** A call made from inside the walk of `s` stays within what the walk of
      `s` may add. */
  lemma InnerWithin(g: Decomp, A: set<string>, B: set<string>, s: string, c: string)
    requires A <= B && !IsPrimitive(g, s) && c in Succ(g, s) && c !in B
    ensures Expanded(g, B + {c}, c) <= Expanded(g, A, s)
  {
    var gA := Avoiding(g, A);
    ReachContainsAndCloses(gA, {s});
    assert c in Succ(gA, s);
    ReachFewerEdges(Avoiding(g, B + {c}), gA, {c});
    ReachFromReached(gA, {s}, c);
  }

  /** The walk of `s` keeps its invariants across a recursive call on `c`. */
  lemma InnerStep(g: Decomp, A: set<string>, B: set<string>, s: string, c: string, T: set<string>)
    requires A <= B && !IsPrimitive(g, s) && c in Succ(g, s) && c !in B
    requires NewlyClosed(g, A, B) && B <= Collected(g, A, s)
    requires B + {c} <= T && Added(g, c) <= T && NewlyClosed(g, B + {c}, T)
    requires T <= Collected(g, B + {c}, c)
    ensures A <= T && c in T && NewlyClosed(g, A, T) && T <= Collected(g, A, s)
  {
    InnerWithin(g, A, B, s, c);
    AddedOverMonotone(g, Expanded(g, B + {c}, c), Expanded(g, A, s));
    ReachContainsAndCloses(Avoiding(g, A), {s});
    assert s in Expanded(g, A, s);
    assert c in Added(g, s);
    forall x | x in T - A ensures Added(g, x) <= T {
      if x !in B + {c} {
      } else if x != c {
        assert x in B - A;
      }
    }
  }

  lemma AddedOverMonotone(g: Decomp, S: set<string>, T: set<string>)
    requires S <= T
    ensures AddedOver(g, S) <= AddedOver(g, T)
  {
  }

  /** An accumulator that holds `A`, everything added for `s`, everything
      added for each of its own new members, and nothing beyond what the
      walk may add, is exactly `Collected(g, A, s)`. */
  lemma CollectedExactly(g: Decomp, A: set<string>, s: string, T: set<string>)
    requires A <= T && Added(g, s) <= T
    requires NewlyClosed(g, A, T)
    requires T <= Collected(g, A, s)
    ensures T == Collected(g, A, s)
  {
    var gA := Avoiding(g, A);
    var S := {s} + (T - A);
    forall y | y in S ensures Succ(gA, y) <= S {
      forall c | c in Succ(gA, y) ensures c in S {
        assert !IsPrimitive(g, y);
        assert c in Added(g, y);
      }
    }
    ReachLeast(gA, {s}, S);
  }

  // ------------------------------------------------------------ properties

  /** A symbol absent from the data, or without components, adds only itself. */
  lemma CollectPrimitive(g: Decomp, A: set<string>, s: string)
    requires IsPrimitive(g, s)
    ensures Collected(g, A, s) == A + {s}
  {
    var gA := Avoiding(g, A);
    assert Succ(gA, s) == {};
    ReachOfClosed(gA, {s});
    AddedOverPrimitive(g, s);
  }

  lemma AddedOverPrimitive(g: Decomp, s: string)
    requires IsPrimitive(g, s)
    ensures AddedOver(g, {s}) == {s}
  {
    assert s in Added(g, s);
    forall x | x in AddedOver(g, {s}) ensures x == s {
      var y :| y in {s} && x in Added(g, y);
    }
  }

  /** A composite symbol adds at least its non-blank direct components. */
  lemma CollectComposite(g: Decomp, A: set<string>, s: string)
    requires !IsPrimitive(g, s)
    ensures A + Succ(g, s) <= Collected(g, A, s)
  {
    ReachContainsAndCloses(Avoiding(g, A), {s});
    assert s in Expanded(g, A, s);
    forall c | c in Succ(g, s) ensures c in AddedOver(g, Expanded(g, A, s)) {
      assert c in Added(g, s);
    }
  }

  /** Everything the walk adds is the starting symbol or a component listed
      in the data: keywords are never added. */
  lemma CollectOnlyComponents(g: Decomp, A: set<string>, s: string)
    ensures Collected(g, A, s) - A <= {s} + AllComponents(g)
  {
    var gA := Avoiding(g, A);
    var S := {s} + AllComponents(g);
    forall y | y in S ensures Succ(gA, y) <= S {
    }
    ReachLeast(gA, {s}, S);
    forall x | x in Collected(g, A, s) - A ensures x in S {
      var y :| y in Expanded(g, A, s) && x in Added(g, y);
    }
  }

  /** A composite that no entry lists as a component is not added by its own
      walk. */
  lemma CompositeNotSelfAdded(g: Decomp, A: set<string>, s: string)
    requires !IsPrimitive(g, s) && s !in A && s !in AllComponents(g)
    ensures s !in Collected(g, A, s)
  {
  }

  /** From an empty accumulator the walk expands everything reachable: it
      collects the closure of KanjiLogic.kt minus keywords and composites. */
  lemma CollectFromEmpty(g: Decomp, s: string)
    ensures Collected(g, {}, s) == AddedOver(g, Reach(g, {s}))
  {
    var g0 := Avoiding(g, {});
    ReachFewerEdges(g0, g, {s});
    ReachFewerEdges(g, g0, {s});
  }

  // ------------------------------------------------------------ buildable

  /** The test of `findBuildableKanji`. */
  predicate Qualifies(entry: KanjiInfo, allowed: set<string>) {
    if entry.components == [] then entry.kanji in allowed
    else forall c :: c in entry.components ==> !IsBlank(c) && c in allowed
  }

  /** `findBuildableKanji(entries, allowed)`: a selection of the corpus in
      corpus order. */
  function FindBuildableKanji(entries: seq<KanjiInfo>, allowed: set<string>): (r: seq<KanjiInfo>)
    ensures IsSubseq(r, entries)
  {
    FilterIsSubseq(entries, e => Qualifies(e, allowed));
    Filter(entries, e => Qualifies(e, allowed))
  }

  /** The buildable entries are exactly the qualifying ones. */
  lemma FindBuildableExactly(entries: seq<KanjiInfo>, allowed: set<string>)
    ensures forall e :: e in FindBuildableKanji(entries, allowed) <==>
      && e in entries
      && (e.components == [] ==> e.kanji in allowed)
      && (e.components != [] ==> forall c :: c in e.components ==> !IsBlank(c) && c in allowed)
  {
  }

  /** More allowed components never lose a buildable entry. */
  lemma FindBuildableMonotone(entries: seq<KanjiInfo>, small: set<string>, large: set<string>)
    requires small <= large
    ensures forall e :: e in FindBuildableKanji(entries, small) ==> e in FindBuildableKanji(entries, large)
  {
    FindBuildableExactly(entries, small);
    FindBuildableExactly(entries, large);
  }

  // ------------------------------------------------------------ main

  /** What a target puts into `allComponents`: its collected components, or
      the target itself when nothing was collected. */
  function TargetComponents(g: Decomp, target: string): set<string> {
    var collected := Collected(g, {}, target);
    if collected == {} then {target} else collected
  }

  /** The union of `TargetComponents` over the targets. */
  function AllTargetComponents(g: Decomp, targets: seq<string>): set<string> {
    if targets == [] then {}
    else AllTargetComponents(g, targets[..|targets| - 1]) + TargetComponents(g, targets[|targets| - 1])
  }

  /** How `main` ends once its inputs are read. */
  datatype Outcome =
    | Fatal(message: string)
    | Listed(newComponent: string, allComponents: set<string>, allowed: set<string>,
             buildable: seq<KanjiInfo>)

  /** The three fatal inputs. */
  predicate FatalInput(arg: Option<string>, targets: seq<string>, entries: seq<KanjiInfo>) {
    || arg == None
    || Trim(arg.value) == []
    || targets == []
    || exists t :: t in targets && t !in Index(entries)
  }

  /** `main(args)` with the target list and the data already read. */
  method Run(arg: Option<string>, targets: seq<string>, entries: seq<KanjiInfo>)
    returns (outcome: Outcome)
    ensures outcome.Fatal? <==> FatalInput(arg, targets, entries)
    ensures outcome.Listed? ==> outcome.newComponent == Trim(arg.value)
    ensures outcome.Listed? ==> outcome.allComponents == AllTargetComponents(Parts(Index(entries)), targets)
    ensures outcome.Listed? ==>
              outcome.allowed == Collected(Parts(Index(entries)), outcome.allComponents + {outcome.newComponent},
                                           outcome.newComponent)
    ensures outcome.Listed? ==> outcome.buildable == FindBuildableKanji(entries, outcome.allowed)
  {
    if arg == None || Trim(arg.value) == [] {
      return Fatal("Usage: kotlinc -script ListComponents.kts <new-component>");
    }
    var newComponent := Trim(arg.value);
    if targets == [] {
      return Fatal("Input CSV kanji-selection.csv did not contain any kanji entries");
    }
    var data := Index(entries);
    var missing := Filter(targets, t => t !in data);
    if missing != [] {
      assert missing[0] in targets && missing[0] !in data;
      return Fatal("Kanji not found in cleaned CSV: " + Join(missing, ", "));
    }
    var allComponents := CollectTargets(data, targets);
    var allowed := CollectComponents(data, newComponent, allComponents + {newComponent});
    return Listed(newComponent, allComponents, allowed, FindBuildableKanji(entries, allowed));
  }

  /** The `allComponents` loop of `main`. */
  method CollectTargets(data: map<string, KanjiInfo>, targets: seq<string>) returns (allComponents: set<string>)
    ensures allComponents == AllTargetComponents(Parts(data), targets)
  {
    allComponents := {};
    for i := 0 to |targets|
      invariant allComponents == AllTargetComponents(Parts(data), targets[..i])
    {
      var collected := CollectComponents(data, targets[i], {});
      allComponents := allComponents + collected;
      if collected == {} {
        allComponents := allComponents + {targets[i]};
      }
      assert targets[..i + 1][..i] == targets[..i];
    }
    assert targets[..|targets|] == targets;
  }

  /** The allowed set holds every collected component of the targets, the new
      component, and the new component's non-blank direct components. */
  lemma AllowedContents(g: Decomp, targets: seq<string>, newComponent: string, t: string)
    requires t in targets
    ensures var allowed := Collected(g, AllTargetComponents(g, targets) + {newComponent}, newComponent);
      && Collected(g, {}, t) <= allowed
      && newComponent in allowed
      && Succ(g, newComponent) <= allowed
  {
    TargetInAll(g, targets, t);
    var A := AllTargetComponents(g, targets) + {newComponent};
    if !IsPrimitive(g, newComponent) {
      CollectComposite(g, A, newComponent);
    }
  }

  lemma {:induction false} TargetInAll(g: Decomp, targets: seq<string>, t: string)
    requires t in targets
    ensures Collected(g, {}, t) <= AllTargetComponents(g, targets)
    ensures t in AllTargetComponents(g, targets) || Collected(g, {}, t) != {}
  {
    var last := targets[|targets| - 1];
    if t != last {
      assert t in targets[..|targets| - 1];
      TargetInAll(g, targets[..|targets| - 1], t);
    }
  }
}
