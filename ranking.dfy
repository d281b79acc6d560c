/**
  * The marginal-gain rankers of KanjiLogic.kt, `rankNextKanji` and
  * `rankNextComponent`.  For each candidate symbol the closure is recomputed
  * for `selection + candidate`; the candidate's gain is the set of kanji it
  * makes buildable that the baseline did not.  Candidates with no gain are
  * dropped and the rest are sorted stably.
  */
module Ranking {
  import opened Text
  import opened Seqs
  import opened Sorting
  import opened KanjiLogic

  datatype NextKanjiSuggestion = NextKanjiSuggestion(kanji: string, gained: seq<KanjiEntry>)

  datatype ComponentSuggestion = ComponentSuggestion(component: string, gained: seq<KanjiEntry>)

  /** Kotlin's `Int.MAX_VALUE`, the grade of a kanji without one. */
  const IntMax: int := 2147483647

  /** `buildable.map { it.kanji }.toSet()`. */
  function KanjiOf(entries: seq<KanjiEntry>): (r: set<string>)
    ensures forall e :: e in entries ==> e.kanji in r
    ensures forall k :: k in r ==> exists e :: e in entries && e.kanji == k
  {
    set e | e in entries :: e.kanji
  }

  /** `baseline ?: computeBuildable(heisigRows, selection, excluded)`. */
  function BaseResult(rows: seq<KanjiEntry>, selection: seq<string>, excluded: seq<string>,
                      baseline: Option<BuildResult>): BuildResult
  {
    if baseline.Some? then baseline.value else Build(rows, selection, excluded)
  }

  /** `buildable.filter { it.kanji in gainedKanji }`. */
  function GainedEntries(buildable: seq<KanjiEntry>, gainedKanji: set<string>): seq<KanjiEntry> {
    Filter(buildable, (e: KanjiEntry) => e.kanji in gainedKanji)
  }

  /** The kanji that selecting `candidate` as well makes buildable, outside
      the baseline buildable kanji `base`. */
  function GainedKanji(rows: seq<KanjiEntry>, selection: seq<string>, excluded: seq<string>,
                       base: set<string>, candidate: string): set<string>
  {
    KanjiOf(Build(rows, selection + [candidate], excluded).buildable) - base
  }

  /** The corpus entries behind `GainedKanji`, in corpus order. */
  function Gained(rows: seq<KanjiEntry>, selection: seq<string>, excluded: seq<string>,
                  base: set<string>, candidate: string): seq<KanjiEntry>
  {
    GainedEntries(Build(rows, selection + [candidate], excluded).buildable,
                  GainedKanji(rows, selection, excluded, base, candidate))
  }

  /** The part of the rankers' loop body that scores one candidate: the
      closure is recomputed with `candidate` added to the selection, and the
      kanji it makes buildable outside `base` are gathered. */
  method Gain(rows: seq<KanjiEntry>, selection: seq<string>, excluded: seq<string>,
              base: set<string>, candidate: string)
    returns (gainedKanji: set<string>, gainedEntries: seq<KanjiEntry>)
    ensures gainedKanji == GainedKanji(rows, selection, excluded, base, candidate)
    ensures gainedEntries == Gained(rows, selection, excluded, base, candidate)
  {
    var candidateResult := ComputeBuildable(rows, selection + [candidate], excluded);
    gainedKanji := KanjiOf(candidateResult.buildable) - base;
    gainedEntries := GainedEntries(candidateResult.buildable, gainedKanji);
  }

  /** The gained entries are new, buildable once `candidate` is selected,
      and in corpus order; there are some exactly when some kanji is gained. */
  lemma {:induction false} GainedFacts(rows: seq<KanjiEntry>, selection: seq<string>, excluded: seq<string>,
                                       base: set<string>, candidate: string)
    ensures var g := Gained(rows, selection, excluded, base, candidate);
      && (g == [] <==> GainedKanji(rows, selection, excluded, base, candidate) == {})
      && (forall e :: e in g ==> e.kanji !in base && e in Build(rows, selection + [candidate], excluded).buildable)
      && IsSubseq(g, rows)
  {
    var b := Build(rows, selection + [candidate], excluded).buildable;
    var gk := GainedKanji(rows, selection, excluded, base, candidate);
    var g := GainedEntries(b, gk);
    if gk != {} {
      var k :| k in gk;
      var e :| e in b && e.kanji == k;
      assert e in g;
    }
    FilterIsSubseq(b, (e: KanjiEntry) => e.kanji in gk);
    BuildableExactly(rows, selection + [candidate], excluded);
    SubseqTrans(g, b, rows);
  }

  // ---------------------------------------------------------------- kanji

  /** `gradeLookup[kanji] ?: Int.MAX_VALUE`. */
  function GradeOf(grades: map<string, Option<int>>, kanji: string): int {
    if kanji in grades && grades[kanji].Some? then grades[kanji].value else IntMax
  }

  /** The comparator of `rankNextKanji`: grade ascending, then gain
      descending, then kanji ascending. */
  predicate KanjiBefore(grades: map<string, Option<int>>, a: NextKanjiSuggestion, b: NextKanjiSuggestion) {
    || GradeOf(grades, a.kanji) < GradeOf(grades, b.kanji)
    || (&& GradeOf(grades, a.kanji) == GradeOf(grades, b.kanji)
        && (|a.gained| > |b.gained| || (|a.gained| == |b.gained| && StrLt(a.kanji, b.kanji))))
  }

  /** `KanjiBefore` as the comparator value handed to the sort. */
  function KanjiOrder(grades: map<string, Option<int>>): (NextKanjiSuggestion, NextKanjiSuggestion) -> bool {
    (a, b) => KanjiBefore(grades, a, b)
  }

  /** What one corpus entry with kanji `candidate` adds to the suggestions
      of `rankNextKanji`: nothing when it is selected, excluded or gains
      nothing. */
  function KanjiStep(rows: seq<KanjiEntry>, selection: seq<string>, excluded: seq<string>,
                     base: set<string>, candidate: string): seq<NextKanjiSuggestion>
  {
    if candidate in selection || candidate in excluded then []
    else if GainedKanji(rows, selection, excluded, base, candidate) == {} then []
    else [NextKanjiSuggestion(candidate, Gained(rows, selection, excluded, base, candidate))]
  }

  /** The suggestions the loop of `rankNextKanji` collects over `entries`,
      before sorting. */
  function KanjiSuggestions(rows: seq<KanjiEntry>, selection: seq<string>, excluded: seq<string>,
                            base: set<string>, entries: seq<KanjiEntry>): seq<NextKanjiSuggestion>
  {
    if entries == [] then []
    else KanjiStep(rows, selection, excluded, base, entries[0].kanji)
         + KanjiSuggestions(rows, selection, excluded, base, entries[1..])
  }

  /** The list `rankNextKanji` returns. */
  function RankedKanji(rows: seq<KanjiEntry>, selection: seq<string>, excluded: seq<string>,
                       baseline: Option<BuildResult>, grades: map<string, Option<int>>): seq<NextKanjiSuggestion>
  {
    var base := KanjiOf(BaseResult(rows, selection, excluded, baseline).buildable);
    SortBy(KanjiSuggestions(rows, selection, excluded, base, rows), KanjiOrder(grades))
  }

  /** `rankNextKanji(heisigRows, selection, excluded, baseline, gradeLookup)`. */
  method RankNextKanji(rows: seq<KanjiEntry>, selection: seq<string>, excluded: seq<string>,
                       baseline: Option<BuildResult>, grades: map<string, Option<int>>)
    returns (ranked: seq<NextKanjiSuggestion>)
    ensures ranked == RankedKanji(rows, selection, excluded, baseline, grades)
  {
    var baseResult: BuildResult;
    if baseline.Some? {
      baseResult := baseline.value;
    } else {
      baseResult := ComputeBuildable(rows, selection, excluded);
    }
    assert baseResult == BaseResult(rows, selection, excluded, baseline);
    var baseBuildable := KanjiOf(baseResult.buildable);
    ghost var all := KanjiSuggestions(rows, selection, excluded, baseBuildable, rows);
    var suggestions: seq<NextKanjiSuggestion> := [];
    for i := 0 to |rows|
      invariant suggestions + KanjiSuggestions(rows, selection, excluded, baseBuildable, rows[i..]) == all
    {
      assert rows[i..][1..] == rows[i + 1..];
      ghost var rest := KanjiSuggestions(rows, selection, excluded, baseBuildable, rows[i + 1..]);
      ghost var step := KanjiStep(rows, selection, excluded, baseBuildable, rows[i].kanji);
      assert suggestions + (step + rest) == all;
      var candidate := rows[i].kanji;
      if candidate in selection || candidate in excluded {
        assert step == [] && step + rest == rest;
        continue;
      }
      var gainedKanji, gainedEntries := Gain(rows, selection, excluded, baseBuildable, candidate);
      if gainedKanji == {} {
        assert step == [] && step + rest == rest;
        continue;
      }
      var suggestion := NextKanjiSuggestion(candidate, gainedEntries);
      assert step == [suggestion];
      AppendAssoc(suggestions, [suggestion], rest);
      suggestions := suggestions + [suggestion];
    }
    assert rows[|rows|..] == [];
    assert suggestions == all;
    ranked := SortBy(suggestions, KanjiOrder(grades));
  }

  /** The comparator of `rankNextKanji` is a strict weak order, so the sort
      is well defined. */
  lemma KanjiBeforeOrder(grades: map<string, Option<int>>)
    ensures StrictWeakOrder(KanjiOrder(grades))
  {
    forall x: NextKanjiSuggestion ensures !KanjiBefore(grades, x, x) {
      StrLtIrreflexive(x.kanji);
    }
    forall x, y, z | KanjiBefore(grades, x, y) && KanjiBefore(grades, y, z)
      ensures KanjiBefore(grades, x, z)
    {
      if StrLt(x.kanji, y.kanji) && StrLt(y.kanji, z.kanji) {
        StrLtTransitive(x.kanji, y.kanji, z.kanji);
      }
    }
    forall x, y, z | !KanjiBefore(grades, x, y) && !KanjiBefore(grades, y, z)
      ensures !KanjiBefore(grades, x, z)
    {
      StrLtTotal(x.kanji, y.kanji);
      StrLtTotal(y.kanji, z.kanji);
      if StrLt(y.kanji, x.kanji) && StrLt(z.kanji, y.kanji) {
        StrLtTransitive(z.kanji, y.kanji, x.kanji);
      }
      if StrLt(x.kanji, z.kanji) {
        StrLtAsymmetric(x.kanji, z.kanji);
      }
    }
  }

  /** A suggestion `rankNextKanji` may make: a kanji neither selected nor
      excluded, carrying its non-empty gain. */
  predicate KanjiSuggestionOk(rows: seq<KanjiEntry>, selection: seq<string>, excluded: seq<string>,
                              base: set<string>, s: NextKanjiSuggestion)
  {
    && s.kanji !in selection && s.kanji !in excluded
    && s.gained == Gained(rows, selection, excluded, base, s.kanji)
    && s.gained != []
  }

  /** Every collected suggestion is one `rankNextKanji` may make. */
  lemma {:induction false} KanjiSuggestionsSound(rows: seq<KanjiEntry>, selection: seq<string>,
                                                 excluded: seq<string>, base: set<string>, entries: seq<KanjiEntry>)
    ensures forall s :: s in KanjiSuggestions(rows, selection, excluded, base, entries) ==>
              KanjiSuggestionOk(rows, selection, excluded, base, s)
  {
    if entries != [] {
      KanjiSuggestionsSound(rows, selection, excluded, base, entries[1..]);
      GainedFacts(rows, selection, excluded, base, entries[0].kanji);
    }
  }

  /** Every entry that is neither selected nor excluded and gains something
      is collected. */
  lemma {:induction false} KanjiSuggestionsComplete(rows: seq<KanjiEntry>, selection: seq<string>,
                                                    excluded: seq<string>, base: set<string>,
                                                    entries: seq<KanjiEntry>, e: KanjiEntry)
    requires e in entries && e.kanji !in selection && e.kanji !in excluded
    requires Gained(rows, selection, excluded, base, e.kanji) != []
    ensures NextKanjiSuggestion(e.kanji, Gained(rows, selection, excluded, base, e.kanji))
            in KanjiSuggestions(rows, selection, excluded, base, entries)
  {
    if e != entries[0] {
      assert e in entries[1..];
      KanjiSuggestionsComplete(rows, selection, excluded, base, entries[1..], e);
    } else {
      GainedFacts(rows, selection, excluded, base, e.kanji);
    }
  }

  /** What `rankNextKanji` promises: no selected or excluded kanji is
      proposed; every suggestion gains a non-empty list of entries, new
      against the baseline, in corpus order; every corpus kanji that gains
      something is proposed; the list is sorted by grade, gain and kanji. */
  lemma RankNextKanjiFacts(rows: seq<KanjiEntry>, selection: seq<string>, excluded: seq<string>,
                           baseline: Option<BuildResult>, grades: map<string, Option<int>>)
    ensures var ranked := RankedKanji(rows, selection, excluded, baseline, grades);
      var base := KanjiOf(BaseResult(rows, selection, excluded, baseline).buildable);
      && SortedBy(ranked, KanjiOrder(grades))
      && (forall s :: s in ranked ==>
            && s.kanji !in selection && s.kanji !in excluded
            && s.gained != []
            && (forall e :: e in s.gained ==> e.kanji !in base)
            && IsSubseq(s.gained, rows))
      && (forall e :: e in rows && e.kanji !in selection && e.kanji !in excluded
                      && Gained(rows, selection, excluded, base, e.kanji) != [] ==>
            NextKanjiSuggestion(e.kanji, Gained(rows, selection, excluded, base, e.kanji)) in ranked)
  {
    var base := KanjiOf(BaseResult(rows, selection, excluded, baseline).buildable);
    var all := KanjiSuggestions(rows, selection, excluded, base, rows);
    var lt := KanjiOrder(grades);
    var ranked := SortBy(all, lt);
    KanjiBeforeOrder(grades);
    SortBySorted(all, lt);
    KanjiSuggestionsSound(rows, selection, excluded, base, rows);
    forall s | s in ranked
      ensures && s.kanji !in selection && s.kanji !in excluded
              && s.gained != []
              && (forall e :: e in s.gained ==> e.kanji !in base)
              && IsSubseq(s.gained, rows)
    {
      assert s in multiset(ranked);
      assert s in all;
      GainedFacts(rows, selection, excluded, base, s.kanji);
    }
    forall e | e in rows && e.kanji !in selection && e.kanji !in excluded
                 && Gained(rows, selection, excluded, base, e.kanji) != []
      ensures NextKanjiSuggestion(e.kanji, Gained(rows, selection, excluded, base, e.kanji)) in ranked
    {
      KanjiSuggestionsComplete(rows, selection, excluded, base, rows, e);
      assert NextKanjiSuggestion(e.kanji, Gained(rows, selection, excluded, base, e.kanji)) in multiset(all);
    }
  }

  // ----------------------------------------------------------- components

  /** `heisigRows.flatMap { it.components }`. */
  function Flatten(rows: seq<KanjiEntry>): (r: seq<string>)
    ensures forall c :: c in r <==> exists e :: e in rows && c in e.components
  {
    if rows == [] then []
    else
      assert forall e :: e in rows ==> e == rows[0] || e in rows[1..];
      rows[0].components + Flatten(rows[1..])
  }

  /** The comparator of `rankNextComponent`: gain descending. */
  predicate MoreGain(a: ComponentSuggestion, b: ComponentSuggestion) {
    |a.gained| > |b.gained|
  }

  /** What one candidate adds to the suggestions of `rankNextComponent`:
      nothing when it is already in the baseline closure or gains nothing. */
  function ComponentStep(rows: seq<KanjiEntry>, selection: seq<string>, excluded: seq<string>,
                         baseResult: BuildResult, candidate: string): seq<ComponentSuggestion>
  {
    var base := KanjiOf(baseResult.buildable);
    if candidate in baseResult.components then []
    else if GainedKanji(rows, selection, excluded, base, candidate) == {} then []
    else [ComponentSuggestion(candidate, Gained(rows, selection, excluded, base, candidate))]
  }

  /** The suggestions the loop of `rankNextComponent` collects over
      `candidates`, before sorting. */
  function ComponentSuggestions(rows: seq<KanjiEntry>, selection: seq<string>, excluded: seq<string>,
                                baseResult: BuildResult, candidates: seq<string>): seq<ComponentSuggestion>
  {
    if candidates == [] then []
    else ComponentStep(rows, selection, excluded, baseResult, candidates[0])
         + ComponentSuggestions(rows, selection, excluded, baseResult, candidates[1..])
  }

  /** The candidates of `rankNextComponent`: the distinct direct components
      of the corpus, in order of first appearance. */
  function ComponentCandidates(rows: seq<KanjiEntry>): seq<string> {
    Distinct(Flatten(rows))
  }

  /** The list `rankNextComponent` returns. */
  function RankedComponents(rows: seq<KanjiEntry>, selection: seq<string>, excluded: seq<string>,
                            baseline: Option<BuildResult>): seq<ComponentSuggestion>
  {
    var baseResult := BaseResult(rows, selection, excluded, baseline);
    SortBy(ComponentSuggestions(rows, selection, excluded, baseResult, ComponentCandidates(rows)), MoreGain)
  }

  /** `rankNextComponent(heisigRows, selection, excluded, baseline)`. */
  method RankNextComponent(rows: seq<KanjiEntry>, selection: seq<string>, excluded: seq<string>,
                           baseline: Option<BuildResult>)
    returns (ranked: seq<ComponentSuggestion>)
    ensures ranked == RankedComponents(rows, selection, excluded, baseline)
  {
    var baseResult: BuildResult;
    if baseline.Some? {
      baseResult := baseline.value;
    } else {
      baseResult := ComputeBuildable(rows, selection, excluded);
    }
    var allComponents := ComponentCandidates(rows);
    var suggestions := CollectComponentSuggestions(rows, selection, excluded, baseResult, allComponents);
    ranked := SortBy(suggestions, MoreGain);
  }

  /** The loop of `rankNextComponent` over the candidate components. */
  method CollectComponentSuggestions(rows: seq<KanjiEntry>, selection: seq<string>, excluded: seq<string>,
                                     baseResult: BuildResult, allComponents: seq<string>)
    returns (suggestions: seq<ComponentSuggestion>)
    ensures suggestions == ComponentSuggestions(rows, selection, excluded, baseResult, allComponents)
  {
    var baseBuildable := KanjiOf(baseResult.buildable);
    ghost var all := ComponentSuggestions(rows, selection, excluded, baseResult, allComponents);
    suggestions := [];
    for i := 0 to |allComponents|
      invariant suggestions + ComponentSuggestions(rows, selection, excluded, baseResult, allComponents[i..]) == all
    {
      assert allComponents[i..][1..] == allComponents[i + 1..];
      ghost var rest := ComponentSuggestions(rows, selection, excluded, baseResult, allComponents[i + 1..]);
      ghost var step := ComponentStep(rows, selection, excluded, baseResult, allComponents[i]);
      assert suggestions + (step + rest) == all;
      var component := allComponents[i];
      if component in baseResult.components {
        assert step == [] && step + rest == rest;
        continue;
      }
      var gainedKanji, gainedEntries := Gain(rows, selection, excluded, baseBuildable, component);
      if gainedKanji == {} {
        assert step == [] && step + rest == rest;
        continue;
      }
      var suggestion := ComponentSuggestion(component, gainedEntries);
      assert step == [suggestion];
      AppendAssoc(suggestions, [suggestion], rest);
      suggestions := suggestions + [suggestion];
    }
    assert allComponents[|allComponents|..] == [];
  }

  /** The names of a list of component suggestions. */
  function Names(s: seq<ComponentSuggestion>): (r: seq<string>)
    ensures |r| == |s|
    ensures forall i :: 0 <= i < |s| ==> r[i] == s[i].component
  {
    if s == [] then [] else [s[0].component] + Names(s[1..])
  }

  /** A suggestion `rankNextComponent` may make: a component outside the
      baseline closure, carrying its non-empty gain. */
  predicate ComponentSuggestionOk(rows: seq<KanjiEntry>, selection: seq<string>, excluded: seq<string>,
                                  baseResult: BuildResult, s: ComponentSuggestion)
  {
    && s.component !in baseResult.components
    && s.gained == Gained(rows, selection, excluded, KanjiOf(baseResult.buildable), s.component)
    && s.gained != []
  }

  /** Every collected suggestion is one `rankNextComponent` may make, and
      the suggestions follow the candidate order. */
  lemma {:induction false} ComponentSuggestionsSound(rows: seq<KanjiEntry>, selection: seq<string>,
                                                     excluded: seq<string>, baseResult: BuildResult,
                                                     candidates: seq<string>)
    ensures var r := ComponentSuggestions(rows, selection, excluded, baseResult, candidates);
      && IsSubseq(Names(r), candidates)
      && forall s :: s in r ==> ComponentSuggestionOk(rows, selection, excluded, baseResult, s)
  {
    if candidates != [] {
      var rest := ComponentSuggestions(rows, selection, excluded, baseResult, candidates[1..]);
      ComponentSuggestionsSound(rows, selection, excluded, baseResult, candidates[1..]);
      GainedFacts(rows, selection, excluded, KanjiOf(baseResult.buildable), candidates[0]);
      var r := ComponentSuggestions(rows, selection, excluded, baseResult, candidates);
      if r == rest {
        SubseqDropHead(Names(rest), candidates);
      } else {
        assert Names(r)[1..] == Names(rest);
      }
    }
  }

  /** Every candidate outside the baseline closure that gains something is
      collected. */
  lemma {:induction false} ComponentSuggestionsComplete(rows: seq<KanjiEntry>, selection: seq<string>,
                                                        excluded: seq<string>, baseResult: BuildResult,
                                                        candidates: seq<string>, c: string)
    requires c in candidates && c !in baseResult.components
    requires Gained(rows, selection, excluded, KanjiOf(baseResult.buildable), c) != []
    ensures ComponentSuggestion(c, Gained(rows, selection, excluded, KanjiOf(baseResult.buildable), c))
            in ComponentSuggestions(rows, selection, excluded, baseResult, candidates)
  {
    if c != candidates[0] {
      assert c in candidates[1..];
      ComponentSuggestionsComplete(rows, selection, excluded, baseResult, candidates[1..], c);
    } else {
      GainedFacts(rows, selection, excluded, KanjiOf(baseResult.buildable), c);
    }
  }

  /** What `rankNextComponent` promises of each suggestion: it names a direct
      component of the corpus outside the baseline closure, with a non-empty
      gain that is new against the baseline and in corpus order; and no
      component is named twice. */
  lemma RankNextComponentSound(rows: seq<KanjiEntry>, selection: seq<string>, excluded: seq<string>,
                               baseline: Option<BuildResult>)
    ensures var ranked := RankedComponents(rows, selection, excluded, baseline);
      var baseResult := BaseResult(rows, selection, excluded, baseline);
      && NoDup(Names(ranked))
      && (forall s :: s in ranked ==>
            && s.component in Flatten(rows)
            && s.component !in baseResult.components
            && s.gained != []
            && (forall e :: e in s.gained ==> e.kanji !in KanjiOf(baseResult.buildable))
            && IsSubseq(s.gained, rows))
  {
    var baseResult := BaseResult(rows, selection, excluded, baseline);
    var base := KanjiOf(baseResult.buildable);
    var candidates := ComponentCandidates(rows);
    var all := ComponentSuggestions(rows, selection, excluded, baseResult, candidates);
    var ranked := SortBy(all, MoreGain);
    ComponentSuggestionsSound(rows, selection, excluded, baseResult, candidates);
    SubseqMembers(Names(all), candidates);
    SubseqNoDup(Names(all), candidates);
    forall s | s in ranked
      ensures && s.component in Flatten(rows)
              && s.component !in baseResult.components
              && s.gained != []
              && (forall e :: e in s.gained ==> e.kanji !in base)
              && IsSubseq(s.gained, rows)
    {
      assert s in multiset(ranked);
      assert ComponentSuggestionOk(rows, selection, excluded, baseResult, s);
      var i :| 0 <= i < |all| && all[i] == s;
      assert Names(all)[i] == s.component;
      assert s.component in candidates;
      assert s.component in Flatten(rows);
      GainedFacts(rows, selection, excluded, base, s.component);
    }
    NamesNoDup(all, ranked);
  }

  /** What `rankNextComponent` promises of the list: every direct component
      of the corpus outside the baseline closure that gains something is
      proposed, and the list is sorted by gain descending. */
  lemma RankNextComponentComplete(rows: seq<KanjiEntry>, selection: seq<string>, excluded: seq<string>,
                                  baseline: Option<BuildResult>)
    ensures var ranked := RankedComponents(rows, selection, excluded, baseline);
      var baseResult := BaseResult(rows, selection, excluded, baseline);
      var base := KanjiOf(baseResult.buildable);
      && SortedBy(ranked, MoreGain)
      && (forall c :: c in Flatten(rows) && c !in baseResult.components
                      && Gained(rows, selection, excluded, base, c) != [] ==>
            ComponentSuggestion(c, Gained(rows, selection, excluded, base, c)) in ranked)
  {
    var baseResult := BaseResult(rows, selection, excluded, baseline);
    var base := KanjiOf(baseResult.buildable);
    var candidates := ComponentCandidates(rows);
    var all := ComponentSuggestions(rows, selection, excluded, baseResult, candidates);
    SortBySorted(all, MoreGain);
    forall c | c in Flatten(rows) && c !in baseResult.components && Gained(rows, selection, excluded, base, c) != []
      ensures ComponentSuggestion(c, Gained(rows, selection, excluded, base, c)) in SortBy(all, MoreGain)
    {
      assert c in candidates;
      ComponentSuggestionsComplete(rows, selection, excluded, baseResult, candidates, c);
      assert ComponentSuggestion(c, Gained(rows, selection, excluded, base, c)) in multiset(all);
    }
  }

  /** Reordering suggestions whose names are distinct keeps them distinct. */
  lemma NamesNoDup(all: seq<ComponentSuggestion>, ranked: seq<ComponentSuggestion>)
    requires NoDup(Names(all)) && multiset(ranked) == multiset(all)
    ensures NoDup(Names(ranked))
  {
    forall i, j | 0 <= i < j < |all| ensures all[i] != all[j] {
      assert Names(all)[i] != Names(all)[j];
    }
    PermutationNoDup(all, ranked);
    forall i, j | 0 <= i < j < |ranked| ensures Names(ranked)[i] != Names(ranked)[j] {
      assert ranked[i] in multiset(all) && ranked[j] in multiset(all);
      var a :| 0 <= a < |all| && all[a] == ranked[i];
      var b :| 0 <= b < |all| && all[b] == ranked[j];
      assert Names(all)[a] != Names(all)[b] || a == b;
    }
  }

  /** `sortedByDescending` is stable: suggestions of equal gain keep the
      first-appearance order of their components. */
  lemma RankNextComponentStable(rows: seq<KanjiEntry>, selection: seq<string>, excluded: seq<string>,
                                baseline: Option<BuildResult>, a: ComponentSuggestion)
    ensures var baseResult := BaseResult(rows, selection, excluded, baseline);
      var all := ComponentSuggestions(rows, selection, excluded, baseResult, ComponentCandidates(rows));
      && Filter(RankedComponents(rows, selection, excluded, baseline), y => Tied(MoreGain, y, a))
         == Filter(all, y => Tied(MoreGain, y, a))
      && IsSubseq(Names(all), ComponentCandidates(rows))
  {
    var baseResult := BaseResult(rows, selection, excluded, baseline);
    var all := ComponentSuggestions(rows, selection, excluded, baseResult, ComponentCandidates(rows));
    SortByStable(all, MoreGain, a);
    ComponentSuggestionsSound(rows, selection, excluded, baseResult, ComponentCandidates(rows));
  }
}
