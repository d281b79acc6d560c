/**
  * The closure and buildability engine of KanjiLogic.kt (`computeBuildable`;
  * BuildKanjiFromComponents.kt holds an identical copy).
  *
  * `expand` walks the decomposition graph from each selected symbol, guarded
  * by a `visiting` set, and collects into `components`: for a symbol missing
  * from the corpus the symbol itself; for a corpus entry its non-blank
  * keywords and then either the symbol itself (no components) or each
  * non-blank direct component.  The buildable list keeps the corpus entries
  * whose components all lie in that set.
  */
module KanjiLogic {
  import opened Text
  import opened Seqs
  import opened Decomposition

  datatype KanjiEntry = KanjiEntry(kanji: string, keywords: seq<string>, components: seq<string>)

  datatype BuildResult = BuildResult(components: set<string>, buildable: seq<KanjiEntry>)

  /** `associateBy { it.kanji }`: one entry per kanji (the same index as
      `ListComponents.Index`). */
  function ByKanji(rows: seq<KanjiEntry>): (m: map<string, KanjiEntry>)
    ensures forall i :: 0 <= i < |rows| ==> rows[i].kanji in m
    ensures forall k :: k in m ==> m[k].kanji == k && m[k] in rows
  {
    AssociateBy(rows, (r: KanjiEntry) => r.kanji)
  }

  /** On duplicate kanji the last row wins. */
  lemma ByKanjiLastWins(rows: seq<KanjiEntry>, i: nat)
    requires i < |rows|
    requires forall j :: i < j < |rows| ==> rows[j].kanji != rows[i].kanji
    ensures ByKanji(rows)[rows[i].kanji] == rows[i]
  {
    AssociateByLastWins(rows, (r: KanjiEntry) => r.kanji, i);
  }

  /** The decomposition graph of the indexed corpus. */
  function Graph(byKanji: map<string, KanjiEntry>): Decomp {
    map k | k in byKanji :: byKanji[k].components
  }

  /** What expanding `s` adds to the closure itself (its recursive calls aside). */
  function Contribution(byKanji: map<string, KanjiEntry>, s: string): set<string> {
    if s !in byKanji then {s}
    else
      var row := byKanji[s];
      NonBlank(row.keywords) + (if row.components == [] then {s} else NonBlank(row.components))
  }

  /** The union of the contributions of the symbols in `S`. */
  function ContributionOf(byKanji: map<string, KanjiEntry>, S: set<string>): set<string> {
    set s, x | s in S && x in Contribution(byKanji, s) :: x
  }

  /** The closure `computeBuildable` collects: the contributions of every
      symbol reachable from the selection. */
  function Closure(rows: seq<KanjiEntry>, selection: seq<string>): set<string> {
    var byKanji := ByKanji(rows);
    ContributionOf(byKanji, Reach(Graph(byKanji), set s | s in selection))
  }

  /** The graph's step from `s` is the non-blank components of its row. */
  lemma GraphSucc(byKanji: map<string, KanjiEntry>, s: string)
    ensures Succ(Graph(byKanji), s) == if s in byKanji then NonBlank(byKanji[s].components) else {}
  {
  }

  /** The buildable test of `computeBuildable`. */
  predicate IsBuildable(entry: KanjiEntry, components: set<string>,
                        selection: seq<string>, excluded: seq<string>)
  {
    && entry.components != []
    && entry.kanji !in selection
    && entry.kanji !in excluded
    && forall c :: c in entry.components ==> c in components
  }

  /** The filter that produces `BuildResult.buildable`. */
  function BuildableFilter(rows: seq<KanjiEntry>, components: set<string>,
                           selection: seq<string>, excluded: seq<string>): seq<KanjiEntry>
  {
    Filter(rows, e => IsBuildable(e, components, selection, excluded))
  }

  /** The result `computeBuildable` returns, as a function of its inputs. */
  function Build(rows: seq<KanjiEntry>, selection: seq<string>, excluded: seq<string>): BuildResult {
    var components := Closure(rows, selection);
    BuildResult(components, BuildableFilter(rows, components, selection, excluded))
  }

  lemma ContributionOfSplit(byKanji: map<string, KanjiEntry>, A: set<string>, B: set<string>)
    ensures ContributionOf(byKanji, A + B) == ContributionOf(byKanji, A) + ContributionOf(byKanji, B)
  {
  }

  lemma ContributionOfOne(byKanji: map<string, KanjiEntry>, s: string)
    ensures ContributionOf(byKanji, {s}) == Contribution(byKanji, s)
  {
    forall x | x in Contribution(byKanji, s) ensures x in ContributionOf(byKanji, {s}) {
      assert s in {s};
    }
  }

  /** `expand(symbol)`.  `visiting` and `components` are the two sets the
      Kotlin closure mutates, passed in and returned.  The ghost `gray` holds
      the symbols whose expansion is still on the call stack, and `reach` is a
      closed set that holds every symbol the walk may visit. */
  method Expand(byKanji: map<string, KanjiEntry>, ghost reach: set<string>, ghost gray: set<string>,
                symbol: string, visiting: set<string>, components: set<string>)
    returns (visiting': set<string>, components': set<string>)
    requires Closed(Graph(byKanji), reach)
    requires symbol in reach && visiting <= reach
    requires gray <= visiting
    requires forall s :: s in visiting && s !in gray ==> Succ(Graph(byKanji), s) <= visiting
    ensures visiting <= visiting' <= reach
    ensures symbol in visiting'
    ensures forall s :: s in visiting' && s !in gray ==> Succ(Graph(byKanji), s) <= visiting'
    ensures components' == components + ContributionOf(byKanji, visiting' - visiting)
    decreases |reach - visiting|, 0
  {
    ghost var g := Graph(byKanji);
    if symbol in visiting {
      return visiting, components;
    }
    GraphSucc(byKanji, symbol);
    visiting' := visiting + {symbol};
    if symbol !in byKanji {
      components' := components + {symbol};
      CloseOver(g, visiting, gray, symbol);
      VisitOne(byKanji, visiting, symbol, components, components');
      return;
    }
    var row := byKanji[symbol];
    var named := AddNonBlank(components, row.keywords);
    if row.components == [] {
      components' := named + {symbol};
      CloseOver(g, visiting, gray, symbol);
      VisitOne(byKanji, visiting, symbol, components, components');
      return;
    }
    ProperSubsetSmaller(reach - visiting', reach - visiting);
    ghost var base := visiting';
    visiting', components' := ExpandComponents(byKanji, reach, gray + {symbol}, symbol, visiting', named);
    ReleaseGray(g, visiting', gray, symbol);
    VisitTree(byKanji, visiting, symbol, visiting', components, named, components');
  }

  /** Expanding a symbol that leads nowhere adds its contribution alone. */
  lemma VisitOne(byKanji: map<string, KanjiEntry>, visiting: set<string>, symbol: string,
                 components: set<string>, components': set<string>)
    requires symbol !in visiting
    requires components' == components + Contribution(byKanji, symbol)
    ensures components' == components + ContributionOf(byKanji, (visiting + {symbol}) - visiting)
  {
    assert (visiting + {symbol}) - visiting == {symbol};
    ContributionOfOne(byKanji, symbol);
  }

  /** Expanding a symbol with components adds its keywords, its components
      and what the walk below them added. */
  lemma VisitTree(byKanji: map<string, KanjiEntry>, visiting: set<string>, symbol: string,
                  after: set<string>, components: set<string>, named: set<string>, components': set<string>)
    requires symbol !in visiting && visiting + {symbol} <= after
    requires symbol in byKanji && byKanji[symbol].components != []
    requires named == components + NonBlank(byKanji[symbol].keywords)
    requires components' == named + NonBlank(byKanji[symbol].components)
                            + ContributionOf(byKanji, after - (visiting + {symbol}))
    ensures components' == components + ContributionOf(byKanji, after - visiting)
  {
    ContributionOfOne(byKanji, symbol);
    ContributionOfSplit(byKanji, {symbol}, after - (visiting + {symbol}));
    assert after - visiting == {symbol} + (after - (visiting + {symbol}));
  }

  /** The loop of `expand` over the direct components of `symbol`, entered
      with `symbol` already marked as visited and on the call stack. */
  method ExpandComponents(byKanji: map<string, KanjiEntry>, ghost reach: set<string>, ghost gray: set<string>,
                          symbol: string, visiting: set<string>, components: set<string>)
    returns (visiting': set<string>, components': set<string>)
    requires Closed(Graph(byKanji), reach)
    requires symbol in byKanji && symbol in gray
    requires gray <= visiting <= reach
    requires forall s :: s in visiting && s !in gray ==> Succ(Graph(byKanji), s) <= visiting
    ensures visiting <= visiting' <= reach
    ensures NonBlank(byKanji[symbol].components) <= visiting'
    ensures forall s :: s in visiting' && s !in gray ==> Succ(Graph(byKanji), s) <= visiting'
    ensures components' == components + NonBlank(byKanji[symbol].components)
                           + ContributionOf(byKanji, visiting' - visiting)
    decreases |reach - visiting|, 1
  {
    ghost var g := Graph(byKanji);
    var parts := byKanji[symbol].components;
    visiting', components' := visiting, components;
    for i := 0 to |parts|
      invariant visiting <= visiting' <= reach
      invariant forall s :: s in visiting' && s !in gray ==> Succ(g, s) <= visiting'
      invariant NonBlank(parts[..i]) <= visiting'
      invariant components' == components + NonBlank(parts[..i]) + ContributionOf(byKanji, visiting' - visiting)
    {
      var component := parts[i];
      assert parts[..i + 1] == parts[..i] + [component];
      NonBlankSnoc(parts[..i], component);
      if IsBlank(component) {
        continue;
      }
      ghost var before := visiting';
      ghost var prior := components';
      components' := components' + {component};
      SubsetNotLarger(reach - before, reach - visiting);
      visiting', components' := Expand(byKanji, reach, gray, component, visiting', components');
      ComponentsStep(byKanji, components, NonBlank(parts[..i]), component,
                     visiting, before, visiting', prior, components');
    }
    assert parts[..|parts|] == parts;
  }

  /** A symbol with no successors outside the visited set keeps it closed. */
  lemma CloseOver(g: Decomp, visiting: set<string>, gray: set<string>, s: string)
    requires forall t :: t in visiting && t !in gray ==> Succ(g, t) <= visiting
    requires Succ(g, s) <= visiting + {s}
    ensures forall t :: t in visiting + {s} && t !in gray ==> Succ(g, t) <= visiting + {s}
  {
  }

  /** Once all of `s`'s successors are visited, `s` leaves the call stack. */
  lemma ReleaseGray(g: Decomp, visiting: set<string>, gray: set<string>, s: string)
    requires forall t :: t in visiting && t !in gray + {s} ==> Succ(g, t) <= visiting
    requires Succ(g, s) <= visiting
    ensures forall t :: t in visiting && t !in gray ==> Succ(g, t) <= visiting
  {
  }

  /** Bookkeeping for one component of `expand`'s loop. */
  lemma ComponentsStep(byKanji: map<string, KanjiEntry>, kept: set<string>, done: set<string>,
                       c: string, base: set<string>, before: set<string>, after: set<string>,
                       prior: set<string>, now: set<string>)
    requires base <= before <= after
    requires prior == kept + done + ContributionOf(byKanji, before - base)
    requires now == prior + {c} + ContributionOf(byKanji, after - before)
    ensures now == kept + (done + {c}) + ContributionOf(byKanji, after - base)
    ensures done + {c} <= now
  {
    ContributionOfSplit(byKanji, before - base, after - before);
    assert after - base == (before - base) + (after - before);
  }

  /** `row.keywords.forEach { if (it.isNotBlank()) components += it }`. */
  method AddNonBlank(components: set<string>, keywords: seq<string>) returns (components': set<string>)
    ensures components' == components + NonBlank(keywords)
  {
    components' := components;
    for k := 0 to |keywords|
      invariant components' == components + NonBlank(keywords[..k])
    {
      assert keywords[..k + 1] == keywords[..k] + [keywords[k]];
      if !IsBlank(keywords[k]) {
        components' := components' + {keywords[k]};
      }
    }
    assert keywords[..|keywords|] == keywords;
  }

  /** `computeBuildable(heisigRows, selection, excluded)`. */
  method ComputeBuildable(rows: seq<KanjiEntry>, selection: seq<string>, excluded: seq<string>)
    returns (result: BuildResult)
    ensures result == Build(rows, selection, excluded)
  {
    var byKanji := ByKanji(rows);
    ghost var g := Graph(byKanji);
    ghost var seeds := set s | s in selection;
    ghost var reach := Reach(g, seeds);
    ReachContainsAndCloses(g, seeds);
    var visiting: set<string> := {};
    var components: set<string> := {};
    for i := 0 to |selection|
      invariant visiting <= reach
      invariant Closed(g, visiting)
      invariant forall j :: 0 <= j < i ==> selection[j] in visiting
      invariant components == ContributionOf(byKanji, visiting)
    {
      ghost var before := visiting;
      visiting, components := Expand(byKanji, reach, {}, selection[i], visiting, components);
      ContributionOfSplit(byKanji, before, visiting - before);
      assert visiting == before + (visiting - before);
    }
    ReachLeast(g, seeds, visiting);
    assert visiting == reach;
    var buildable := Filter(rows, e => IsBuildable(e, components, selection, excluded));
    result := BuildResult(components, buildable);
  }

  /** A selection symbol reached as a primitive (absent from the corpus, or
      listing no components) is in the closure as itself. */
  lemma SeedSelfInClosure(rows: seq<KanjiEntry>, selection: seq<string>, s: string)
    requires s in selection
    requires s !in ByKanji(rows) || ByKanji(rows)[s].components == []
    ensures s in Closure(rows, selection)
  {
    var byKanji := ByKanji(rows);
    var seeds := set t | t in selection;
    ReachContainsAndCloses(Graph(byKanji), seeds);
    var reach := Reach(Graph(byKanji), seeds);
    assert s in reach && s in Contribution(byKanji, s);
  }

  /** A selection symbol no corpus row names is a primitive of the closure. */
  lemma AbsentSeedInClosure(rows: seq<KanjiEntry>, selection: seq<string>, s: string)
    requires s in selection
    requires forall i :: 0 <= i < |rows| ==> rows[i].kanji != s
    ensures s in Closure(rows, selection)
  {
    assert s !in ByKanji(rows);
    SeedSelfInClosure(rows, selection, s);
  }

  /** Every reached corpus entry brings its non-blank keywords and non-blank
      direct components into the closure. */
  lemma ReachedEntryInClosure(rows: seq<KanjiEntry>, selection: seq<string>, s: string)
    requires s in Reach(Graph(ByKanji(rows)), set t | t in selection)
    requires s in ByKanji(rows)
    ensures NonBlank(ByKanji(rows)[s].keywords) <= Closure(rows, selection)
    ensures NonBlank(ByKanji(rows)[s].components) <= Closure(rows, selection)
    ensures NonBlank(ByKanji(rows)[s].components) <= Reach(Graph(ByKanji(rows)), set t | t in selection)
  {
    var byKanji := ByKanji(rows);
    var seeds := set t | t in selection;
    var reach := Reach(Graph(byKanji), seeds);
    ReachContainsAndCloses(Graph(byKanji), seeds);
    GraphSucc(byKanji, s);
    forall x | x in Contribution(byKanji, s) ensures x in Closure(rows, selection) {
      assert s in reach;
    }
  }

  lemma ContributionOfMonotone(byKanji: map<string, KanjiEntry>, A: set<string>, B: set<string>)
    requires A <= B
    ensures ContributionOf(byKanji, A) <= ContributionOf(byKanji, B)
  {
    ContributionOfSplit(byKanji, A, B - A);
    assert B == A + (B - A);
  }

  /** Growing the selection never shrinks the closure. */
  lemma ClosureMonotone(rows: seq<KanjiEntry>, small: seq<string>, large: seq<string>)
    requires forall s :: s in small ==> s in large
    ensures Closure(rows, small) <= Closure(rows, large)
  {
    var byKanji := ByKanji(rows);
    ReachMonotone(Graph(byKanji), set s | s in small, set s | s in large);
    ContributionOfMonotone(byKanji, Reach(Graph(byKanji), set s | s in small),
                           Reach(Graph(byKanji), set s | s in large));
  }

  /** `buildable` is exactly the corpus entries meeting the four criteria, in
      corpus order. */
  lemma BuildableExactly(rows: seq<KanjiEntry>, selection: seq<string>, excluded: seq<string>)
    ensures forall e :: e in Build(rows, selection, excluded).buildable <==>
      && e in rows
      && e.components != []
      && e.kanji !in selection
      && e.kanji !in excluded
      && (forall c :: c in e.components ==> c in Closure(rows, selection))
    ensures IsSubseq(Build(rows, selection, excluded).buildable, rows)
  {
    var components := Closure(rows, selection);
    FilterIsSubseq(rows, e => IsBuildable(e, components, selection, excluded));
  }

  /** A kanji added to the selection leaves the buildable list, whatever the
      closure gains: buildability is not monotone in the selection. */
  lemma CandidateLeavesBuildable(rows: seq<KanjiEntry>, selection: seq<string>, excluded: seq<string>,
                                 e: KanjiEntry)
    ensures e !in Build(rows, selection + [e.kanji], excluded).buildable
  {
    assert e.kanji in selection + [e.kanji];
  }

  /** The corpus of the repository's test: 日 and 月 are primitives and 明 is
      built from them. */
  function BrightCorpus(): seq<KanjiEntry> {
    [KanjiEntry("日", ["day"], []),
     KanjiEntry("月", ["month"], []),
     KanjiEntry("明", ["bright"], ["日", "月"])]
  }

  /** Selecting 日 and 月 makes 明 buildable. */
  lemma DayAndMonthBuildBright()
    ensures BrightCorpus()[2] in Build(BrightCorpus(), ["日", "月"], []).buildable
  {
    var rows := BrightCorpus();
    var selection := ["日", "月"];
    ByKanjiLastWins(rows, 0);
    ByKanjiLastWins(rows, 1);
    SeedSelfInClosure(rows, selection, "日");
    SeedSelfInClosure(rows, selection, "月");
    var components := Closure(rows, selection);
    assert IsBuildable(rows[2], components, selection, []);
  }

  /** Buildability is not monotone: 明 is buildable from [日, 月] and is not
      once 明 itself is selected, though the closure only grows. */
  lemma BuildableNotMonotone()
    ensures exists rows: seq<KanjiEntry>, selection: seq<string>, c: string, e: KanjiEntry ::
      && e in Build(rows, selection, []).buildable
      && e !in Build(rows, selection + [c], []).buildable
      && Closure(rows, selection) <= Closure(rows, selection + [c])
  {
    var rows := BrightCorpus();
    var selection := ["日", "月"];
    DayAndMonthBuildBright();
    CandidateLeavesBuildable(rows, selection, [], rows[2]);
    ClosureMonotone(rows, selection, selection + [rows[2].kanji]);
  }

  /** A chain: "s" is built from "c", and "c" from "p". */
  function ChainCorpus(): seq<KanjiEntry> {
    [KanjiEntry("s", [], ["c"]), KanjiEntry("c", [], ["p"])]
  }

  /** The index of the chain holds both rows under their kanji. */
  lemma ChainIndex()
    ensures ByKanji(ChainCorpus()) == map["s" := ChainCorpus()[0], "c" := ChainCorpus()[1]]
  {
    var rows := ChainCorpus();
    ByKanjiLastWins(rows, 0);
    ByKanjiLastWins(rows, 1);
    assert ByKanji(rows).Keys == {"s", "c"};
  }

  /** From "s" the walk reaches "c" and "p"; from "c" and "p" nothing more. */
  lemma ChainReach()
    ensures Reach(Graph(ByKanji(ChainCorpus())), {"s"}) == {"s", "c", "p"}
    ensures Reach(Graph(ByKanji(ChainCorpus())), {"c", "p"}) == {"c", "p"}
  {
    ChainIndex();
    var g := Graph(ByKanji(ChainCorpus()));
    assert g == map["s" := ["c"], "c" := ["p"]];
    assert !IsWhitespace("c"[0]) && !IsWhitespace("p"[0]);
    assert Succ(g, "s") == {"c"} && Succ(g, "c") == {"p"} && Succ(g, "p") == {};
    ReachContainsAndCloses(g, {"s"});
    ReachLeast(g, {"s"}, {"s", "c", "p"});
    ReachOfClosed(g, {"c", "p"});
  }

  lemma ContributionOfTwo(byKanji: map<string, KanjiEntry>, a: string, b: string)
    ensures ContributionOf(byKanji, {a, b}) == Contribution(byKanji, a) + Contribution(byKanji, b)
  {
    var both := ContributionOf(byKanji, {a, b});
    forall x | x in Contribution(byKanji, a) ensures x in both {
      assert a in {a, b};
    }
    forall x | x in Contribution(byKanji, b) ensures x in both {
      assert b in {a, b};
    }
  }

  /** What each symbol of the chain contributes by itself. */
  lemma ChainContribution()
    ensures Contribution(ByKanji(ChainCorpus()), "s") == {"c"}
    ensures Contribution(ByKanji(ChainCorpus()), "c") == {"p"}
    ensures Contribution(ByKanji(ChainCorpus()), "p") == {"p"}
  {
    ChainIndex();
    assert !IsWhitespace("c"[0]) && !IsWhitespace("p"[0]);
    assert NonBlank([]) == {};
    assert NonBlank(["c"]) == {"c"} && NonBlank(["p"]) == {"p"};
  }

  /** "s" contributes "c", and "c" and "p" contribute "p". */
  lemma ChainContributions()
    ensures ContributionOf(ByKanji(ChainCorpus()), {"s", "c", "p"}) == {"c", "p"}
    ensures ContributionOf(ByKanji(ChainCorpus()), {"c", "p"}) == {"p"}
  {
    ChainContribution();
    ContributionOfTwo(ByKanji(ChainCorpus()), "c", "p");
    ContributionOfTwo(ByKanji(ChainCorpus()), "s", "c");
    ContributionOfSplit(ByKanji(ChainCorpus()), {"s", "c"}, {"p"});
    assert {"s", "c", "p"} == {"s", "c"} + {"p"};
  }

  /** The closure is not idempotent: from "s" it collects "c" and "p", but
      selecting those collects "p" alone, because a symbol with components
      contributes them and not itself. */
  lemma ClosureNotIdempotent()
    ensures Closure(ChainCorpus(), ["s"]) == {"c", "p"}
    ensures Closure(ChainCorpus(), ["c", "p"]) == {"p"}
  {
    ChainReach();
    ChainContributions();
    assert (set t | t in ["s"]) == {"s"};
    assert (set t | t in ["c", "p"]) == {"c", "p"};
  }
}
