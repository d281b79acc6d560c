# kanji-ordering in Dafny

This project models the core logic of kanji-ordering, a set of Kotlin tools that
plan the order in which to learn Heisig kanji from their building blocks.

A corpus row names a kanji, its keywords, its JLPT level and its direct components.
A component is itself a kanji or a primitive. The model covers five pieces:

- **The closure and buildability engine.** This is `computeBuildable` in
  `KanjiLogic.kt`, with a verbatim copy in `BuildKanjiFromComponents.kt`. It closes a
  selection over the decomposition graph, merging keywords in. Symbols absent from the
  corpus become primitives. It then filters the corpus down to the entries whose
  components are all collected.
  - Modules `Decomposition`, `KanjiLogic` and `BuildKanjiFromComponents`.
  - The recursive `expand` is a recursive method over the `visiting` and `components`
    sets. It is proved to compute the contributions of every symbol reachable from the
    selection, where "reachable" is the least closed superset `Reach`.
- **The marginal-gain rankers** `rankNextKanji` and `rankNextComponent` (module `Ranking`).
  Both are loops over the candidates, proved against specification functions. Their
  sorts are a stable insertion sort (module `Sorting`) over the source's comparators.
- **The greedy curriculum scheduler** of `GenerateOrdering.kts` (module `GenerateOrdering`):
  - `jlptWeight`;
  - `buildComponentUsage`, a loop filling a usage map;
  - `selectComponent` and `isBetter`;
  - `buildOrdering`. This is a while loop that alternates between draining every ready
    entry in weight/keyword/kanji order and introducing the single component that unlocks
    the most weight. It keeps an introduction log and reports the leftover kanji.
- **The CSV line codec** (module `Csv`): `parseCsvLine` as a loop, `escapeCsv`/`toCsvRow`,
  and the `;`-split of the components field. The module proves that parsing a written row
  gives back its cells.
- **`ListComponents.kts`** (module `ListComponents`) and **the KanjiVG side of
  `CleanKanjiCsv.kts`** (module `KanjiVg`):
  - `collectComponents`, the allowed set, `findBuildableKanji` and the fatal input checks;
  - `getElementName`, `firstChildGroup`, `extractLeafComponents` over an abstract element
    tree, the component-map loop, and the rows `writeOutput` writes.

Modules `Text` and `Seqs` hold the JVM notions of whitespace, blankness and trimming,
`String.compareTo` as lexicographic order, split and join, and sequence utilities.

File I/O, printing and exiting are parameters or results:
- a fatal `error(...)` is an `Outcome.Fatal` value;
- the warning `buildOrdering` prints is returned as the sorted list of unresolved kanji.

Kotlin `Int` is modelled as an unbounded integer.

Two properties one might expect of these tools do not hold of the code. The model follows
the code:
- **Expanding twice is not the same as expanding once.**
  - A composite selected symbol's own name is never added to the collected set.
  - Keywords land in the same set as components.
  - So `computeBuildable` run on its own collected set is not idempotent
    (`KanjiLogic.ClosureNotIdempotent`).
- **The scheduler does not always schedule every entry of an acyclic corpus.**
  - `selectComponent` only introduces a component that by itself completes some remaining
    entry.
  - An entry that needs two not-yet-introduced components is never unlocked
    (`GenerateOrdering.SchedulerNotTotal`).
  - `BuildOrdering` then stops with those entries left over. Its contract states exactly
    when this happens: nothing is ready and no single component is eligible.

## Model

| member | source | states |
|---|---|---|
| `KanjiLogic.ByKanjiLastWins` | src/main/kotlin/KanjiLogic.kt:35 | `associateBy` keeps the last row of each kanji |
| `KanjiLogic.Expand` | src/main/kotlin/KanjiLogic.kt:40-60 | one `expand` call visits the symbol, stays inside the reachable set, leaves every finished symbol's successors visited, and adds exactly the contributions of the newly visited symbols (own symbol if primitive, non-blank keywords, non-blank components) |
| `KanjiLogic.ExpandComponents` | src/main/kotlin/KanjiLogic.kt:55-59 | the component loop adds each non-blank direct component and expands it, leaving all of them visited |
| `KanjiLogic.AddNonBlank` | src/main/kotlin/KanjiLogic.kt:47-49 | the keyword loop adds exactly the non-blank keywords |
| `KanjiLogic.ComputeBuildable` | src/main/kotlin/KanjiLogic.kt:30-74 | the result is the specification `Build`: the closure is the union of the contributions of all symbols reachable from the selection, and the buildable list is the filter below; expansion terminates on cyclic graphs |
| `KanjiLogic.SeedSelfInClosure` | src/main/kotlin/KanjiLogic.kt:41-54 | a selected symbol that is absent from the corpus, or lists no components, is in the closure as itself |
| `KanjiLogic.AbsentSeedInClosure` | src/main/kotlin/KanjiLogic.kt:43-46 | a selected symbol no corpus row names is in the closure |
| `KanjiLogic.ReachedEntryInClosure` | src/main/kotlin/KanjiLogic.kt:47-59 | every reached corpus entry brings its non-blank keywords and non-blank direct components into the closure, and those components are reached in turn |
| `KanjiLogic.ClosureMonotone` | src/main/kotlin/KanjiLogic.kt:62 | a larger selection never gives a smaller closure |
| `KanjiLogic.BuildableExactly` | src/main/kotlin/KanjiLogic.kt:64-71 | an entry is buildable iff it is in the corpus, has a component, is neither selected nor excluded, and has all its components in the closure; the list keeps corpus order |
| `KanjiLogic.CandidateLeavesBuildable` | src/main/kotlin/KanjiLogic.kt:94-96 | selecting a kanji removes it from the buildable list |
| `KanjiLogic.DayAndMonthBuildBright` | src/test/kotlin/BuildKanjiFromComponentsTest.kt:9-11 | with 日 and 月 primitive and 明 = 日 + 月, the selection [日, 月] makes 明 buildable |
| `KanjiLogic.BuildableNotMonotone` | src/main/kotlin/KanjiLogic.kt:94-96 | some selection loses a buildable entry when one more symbol is selected, though the closure grows; that is why gain is a set difference |
| `KanjiLogic.ClosureNotIdempotent` | src/main/kotlin/KanjiLogic.kt:40-60 | with "s" built from "c" and "c" from "p", the closure of "s" is {c, p} but the closure of c and p is {p}: a symbol with components adds them and not itself |
| `Decomposition.ReachContainsAndCloses` | src/main/kotlin/KanjiLogic.kt:55-59 | the reachable set contains the seeds and is closed under direct components |
| `Decomposition.ReachLeast` | src/main/kotlin/KanjiLogic.kt:62 | the reachable set is contained in every closed superset of the seeds |
| `BuildKanjiFromComponents.Run` | src/main/kotlin/BuildKanjiFromComponents.kt:16-39 | fatal iff the selection is empty; otherwise it warns about exactly the selected kanji missing from the corpus and reports `computeBuildable`'s result |
| `BuildKanjiFromComponents.Missing` | src/main/kotlin/BuildKanjiFromComponents.kt:29 | a kanji is warned about iff it is selected and no corpus row names it |
| `BuildKanjiFromComponents.MissingStillExpanded` | src/main/kotlin/BuildKanjiFromComponents.kt:29-32 | a kanji that only drew a warning is still expanded into the collected components |
| `BuildKanjiFromComponents.ExcludedNeverBuildable` | src/main/kotlin/BuildKanjiFromComponents.kt:75-82 | an excluded kanji is never buildable, whatever the closure holds |
| `Ranking.Gain` | src/main/kotlin/KanjiLogic.kt:94-99 | the gain of a candidate is the buildable set of `selection + candidate` minus the baseline buildable kanji, and its entries |
| `Ranking.GainedFacts` | src/main/kotlin/KanjiLogic.kt:96-99 | the gained entries are new against the baseline, buildable with the candidate, in corpus order, and non-empty exactly when some kanji is gained |
| `Ranking.RankNextKanji` | src/main/kotlin/KanjiLogic.kt:76-108 | the loop and sort compute the specification `RankedKanji` |
| `Ranking.KanjiBeforeOrder` | src/main/kotlin/KanjiLogic.kt:103-107 | grade ascending (missing grade last), then gain descending, then kanji ascending is a strict weak order |
| `Ranking.KanjiSuggestionsSound` | src/main/kotlin/KanjiLogic.kt:90-101 | every suggestion is an unselected, unexcluded corpus kanji with its non-empty gain |
| `Ranking.KanjiSuggestionsComplete` | src/main/kotlin/KanjiLogic.kt:90-101 | every unselected, unexcluded corpus kanji with a non-empty gain is suggested |
| `Ranking.RankNextKanjiFacts` | src/main/kotlin/KanjiLogic.kt:90-107 | the ranked list never proposes a selected or excluded kanji; each gain is non-empty, new against the baseline and in corpus order; every kanji with a gain is proposed; the list is sorted by grade, gain and kanji |
| `Ranking.Flatten` | src/main/kotlin/KanjiLogic.kt:120 | a symbol is a candidate iff it is a direct component of some row |
| `Ranking.RankNextComponent` | src/main/kotlin/KanjiLogic.kt:110-136 | the loop and sort compute the specification `RankedComponents` |
| `Ranking.CollectComponentSuggestions` | src/main/kotlin/KanjiLogic.kt:122-133 | the suggestion loop computes the specification `ComponentSuggestions` over the candidates in first-appearance order |
| `Ranking.ComponentSuggestionsSound` | src/main/kotlin/KanjiLogic.kt:123-133 | every suggestion names a candidate outside the baseline closure with its non-empty gain, in candidate order |
| `Ranking.ComponentSuggestionsComplete` | src/main/kotlin/KanjiLogic.kt:123-133 | every candidate outside the baseline closure with a non-empty gain is suggested |
| `Ranking.RankNextComponentSound` | src/main/kotlin/KanjiLogic.kt:116-135 | each ranked component is a corpus component outside the baseline closure, no component appears twice, and each gain is non-empty, new and in corpus order |
| `Ranking.RankNextComponentComplete` | src/main/kotlin/KanjiLogic.kt:120-135 | the list is sorted by gain descending and holds every corpus component outside the baseline closure that gains something |
| `Ranking.RankNextComponentStable` | src/main/kotlin/KanjiLogic.kt:135 | suggestions of equal gain keep the first-appearance order of their components |
| `Sorting.SortBySorted` | src/main/kotlin/KanjiLogic.kt:103-107 | sorting under a strict weak order gives a sorted permutation |
| `Sorting.SortByStable` | src/main/kotlin/KanjiLogic.kt:135 | the sort is stable: tied elements keep their input order |
| `GenerateOrdering.JlptWeight` | GenerateOrdering.kts:101-104 | every weight is at least 1 |
| `GenerateOrdering.JlptWeightRange` | GenerateOrdering.kts:101-104 | every weight is 100, 70, 40, 20, 10 or 1, and it is 1 exactly when the upper-cased level is not N5 to N1 |
| `GenerateOrdering.JlptWeightIgnoresCase` | GenerateOrdering.kts:101-104 | any level weighs what its upper-cased form weighs |
| `GenerateOrdering.JlptWeightExamples` | GenerateOrdering.kts:6-12 | N5/N4/N3/N2/N1 weigh 100/70/40/20/10 in lower case too, and an empty or unknown level weighs 1 |
| `GenerateOrdering.BuildComponentUsage` | GenerateOrdering.kts:90-99 | an index is listed under a component iff that component is a non-blank component of that entry; the keys are exactly those components, each once, and each index list is ascending and non-empty |
| `GenerateOrdering.RecordEntry` | GenerateOrdering.kts:93-96 | one entry's pass adds its index under each of its non-blank components and keeps the usage index well formed |
| `GenerateOrdering.IsBetter` | GenerateOrdering.kts:200-211 | any candidate beats an absent best; a heavier candidate always wins and a lighter one never does; no candidate beats itself |
| `GenerateOrdering.BetterOrder` | GenerateOrdering.kts:200-211 | `isBetter` is irreflexive, asymmetric and transitive, and total on candidates with distinct components |
| `GenerateOrdering.BestUnique` | GenerateOrdering.kts:170-211 | at most one candidate beats every other eligible one, so the choice does not depend on iteration order |
| `GenerateOrdering.SelectComponent` | GenerateOrdering.kts:170-198 | the result is empty iff no unused component unlocks a remaining entry; otherwise it is that component's candidate and beats every other eligible component |
| `GenerateOrdering.UnlockedBy` | GenerateOrdering.kts:181-189 | the inner loop keeps exactly the remaining indices whose entry needs nothing beyond the component and what is introduced, in usage order |
| `GenerateOrdering.SelectedFacts` | GenerateOrdering.kts:178-192 | the chosen component is unused and unlocks at least one remaining entry that it completes, and its weight is the sum of the unlocked weights |
| `GenerateOrdering.SelectedWeightAtLeastCount` | GenerateOrdering.kts:191 | with weights of at least 1, a chosen component's weight is at least its unlocked count, which is at least 1 |
| `GenerateOrdering.IndexOrderIsStrictWeak` | GenerateOrdering.kts:125-129 | weight descending, then keyword, then kanji is a strict weak order on entry indices |
| `GenerateOrdering.Available` | GenerateOrdering.kts:120-122 | an index is available iff it remains and every component of its entry is introduced; none is listed twice |
| `GenerateOrdering.DrainBatch` | GenerateOrdering.kts:130-141 | draining appends one row per sorted index, labelled by the batch label, and removes exactly those indices |
| `GenerateOrdering.SortedBatch` | GenerateOrdering.kts:120-129 | the sorted batch holds exactly the ready entries, once each, in comparator order |
| `GenerateOrdering.DrainKeeps` | GenerateOrdering.kts:124-143 | a drained batch keeps the schedule invariant, takes the batch label, leaves nothing ready and strictly shrinks `remaining` |
| `GenerateOrdering.SelectKeeps` | GenerateOrdering.kts:146-157 | introducing the chosen component keeps the schedule invariant and logs it with the next order number, its weight and its unlocked count |
| `GenerateOrdering.BuildOrdering` | GenerateOrdering.kts:106-168 | the loop takes greedy turns: each batch is exactly the ready entries of its turn in comparator order, and each logged component is the best eligible candidate of its turn, with weight the sum of what it unlocks; rows and log are those the turns write; each entry is scheduled at most once; each row copies its entry and is labelled "INITIAL" or the component introduced just before its batch; every component of a scheduled entry was introduced before its batch; batches keep comparator order; log orders are 1..n with distinct components, each followed by a batch; the loop ends with every entry scheduled or with nothing ready and no eligible component; the warning lists the leftover kanji |
| `GenerateOrdering.IntroductionsLabelRows` | GenerateOrdering.kts:142-157 | every logged component labels some written row |
| `GenerateOrdering.LeftoverSorted` | GenerateOrdering.kts:160-165 | the warning lists exactly the kanji of the unscheduled entries, in ascending order |
| `GenerateOrdering.Finished` | GenerateOrdering.kts:119-147 | when the loop stops, `remaining` is the unscheduled entries and every introduction has had its batch |
| `GenerateOrdering.Generate` | GenerateOrdering.kts:44-53 | the usage index of the corpus, then the greedy run that stops over it: rows and log are those its turns write, rows agree with their entries, no entry twice, batches ordered, log numbered with distinct components, the stop condition, and the leftover reported |
| `GenerateOrdering.TracedDrain` | GenerateOrdering.kts:119-143 | draining the sorted ready entries under a pending label is one more greedy turn, writing that batch's rows |
| `GenerateOrdering.TracedIntroduce` | GenerateOrdering.kts:146-157 | introducing the best eligible component when nothing is ready is one more greedy turn, writing the next log record |
| `GenerateOrdering.TurnDeterministic` | GenerateOrdering.kts:119-157 | from any state at most one greedy turn is possible |
| `GenerateOrdering.StoppedHasNoTurn` | GenerateOrdering.kts:119-147 | no greedy turn leaves a state where the loop stops |
| `GenerateOrdering.GreedyRunUnique` | GenerateOrdering.kts:106-168 | two greedy runs that both stop are the same run, so the ordering depends only on the corpus and its usage index |
| `GenerateOrdering.SchedulerNotTotal` | GenerateOrdering.kts:170-198 | a single kanji built from two unused components stops the run before any turn, leaving it unresolved |
| `Csv.ParseCsvLine` | GenerateOrdering.kts:261-287 | the character loop computes `ParseLine`, the quote-aware cell split |
| `Csv.CellCount` | src/main/kotlin/BuildKanjiFromComponents.kt:146-173 | a line has one more cell than it has commas outside quotes |
| `Csv.QuoteFreeIsSplit` | src/main/kotlin/KanjiLogic.kt:205-232 | without quotes, parsing is a plain split at every comma |
| `Csv.ParseQuoteFreeLine` | ListComponents.kts:123-149 | a line without quotes parses to its comma-separated pieces |
| `Csv.ReadDoubled` | CleanKanjiCsv.kts:147-173 | inside quotes a doubled quote reads as one quote and commas are kept in the cell |
| `Csv.ToCsvRow` | GenerateOrdering.kts:247-252 | the writer loop builds the escaped cells joined by commas |
| `Csv.EscapeCsv` | CleanKanjiCsv.kts:102-107 | a value is written unchanged exactly when it has no ',', '"' or line feed; any other value is written between quotes |
| `Csv.ReadField` | GenerateOrdering.kts:254-259 | an escaped value reads back as the value |
| `Csv.RowRoundTrip` | CleanKanjiCsv.kts:95-107 | parsing a written non-empty row gives back its cells |
| `Csv.SplitComponents` | GenerateOrdering.kts:76-82 | no component read is empty, and a blank field gives none |
| `Csv.SplitComponentsClean` | GenerateOrdering.kts:76-82 | every component read from a field is non-empty, trimmed and free of ';' |
| `Csv.ComponentsRoundTrip` | CleanKanjiCsv.kts:87 | components joined by "; " read back as the same list |
| `Text.TrimFacts` | GenerateOrdering.kts:80 | `trim` leaves no whitespace at either end, changes nothing already trimmed, and is empty iff the string is blank |
| `Text.StrLtTransitive` | GenerateOrdering.kts:210 | `String.compareTo` order is transitive |
| `Text.StrLtTotal` | GenerateOrdering.kts:127-128 | any two distinct strings are ordered one way |
| `Text.SplitJoin` | GenerateOrdering.kts:79 | splitting a join at its separator gives back the pieces |
| `Seqs.AssociateBy` | ListComponents.kts:23 | every row's key is a key, and each key maps to a row with that key |
| `Seqs.AssociateByLastWins` | src/main/kotlin/KanjiLogic.kt:35 | on duplicate keys the last row wins |
| `ListComponents.Index` | ListComponents.kts:23 | every kanji of the data is a key, and each maps to a row of that kanji |
| `ListComponents.IndexLastWins` | ListComponents.kts:23 | on duplicate kanji the last row wins |
| `ListComponents.CollectComponents` | ListComponents.kts:69-86 | the accumulator only grows, receives the symbol itself when it is absent or has no components and its non-blank direct components otherwise, and ends as the specification `Collected`, so recursion terminates on cycles |
| `ListComponents.CollectEach` | ListComponents.kts:80-85 | the loop adds each non-blank component and recurses only on a fresh insertion |
| `ListComponents.CollectedExactly` | ListComponents.kts:69-86 | a set between the accumulator and `Collected` that holds what each new member adds is `Collected` |
| `ListComponents.CollectOnlyComponents` | ListComponents.kts:69-86 | a walk adds nothing but the symbol itself and corpus components: keywords are never added |
| `ListComponents.CompositeNotSelfAdded` | ListComponents.kts:76-84 | a composite symbol that is nobody's component does not add its own name |
| `ListComponents.CollectFromEmpty` | ListComponents.kts:33-34 | from an empty accumulator the walk collects what every symbol reachable from the target adds |
| `ListComponents.FindBuildableExactly` | ListComponents.kts:113-121 | an entry without components qualifies iff its kanji is allowed, one with components iff every component is non-blank and allowed |
| `ListComponents.FindBuildableKanji` | ListComponents.kts:113-121 | the buildable list is a subsequence of the corpus, in corpus order |
| `ListComponents.FindBuildableMonotone` | ListComponents.kts:113-121 | allowing more components never loses a buildable entry |
| `ListComponents.Run` | ListComponents.kts:12-65 | fatal iff the argument is missing or blank, the targets are empty, or a target is absent from the data; otherwise the targets' components, the allowed set and the buildable list are as specified |
| `ListComponents.CollectTargets` | ListComponents.kts:29-40 | the targets' loop unites their collected components, adding a target itself when it collects nothing |
| `ListComponents.AllowedContents` | ListComponents.kts:52-56 | the allowed set holds every collected component of each target, the new component and its non-blank direct components |
| `KanjiVg.GetElementName` | CleanKanjiCsv.kts:140-145 | the namespaced `element` attribute if non-blank, else `kvg:element` if non-blank, else nothing |
| `KanjiVg.FirstGroupIndex` | CleanKanjiCsv.kts:109-118 | the position of the first `<g>` child, with no group before it |
| `KanjiVg.FirstChildGroup` | CleanKanjiCsv.kts:109-118 | the loop returns the first `<g>` element child, or nothing |
| `KanjiVg.Leaves` | CleanKanjiCsv.kts:120-138 | the leaf list never holds a name twice |
| `KanjiVg.ExtractLeafComponents` | CleanKanjiCsv.kts:120-138 | the loop computes the specification `Leaves` |
| `KanjiVg.LeafGroup` | CleanKanjiCsv.kts:131-136 | a group with no child group yields its non-blank name alone, or nothing |
| `KanjiVg.CompositeGroup` | CleanKanjiCsv.kts:121-130 | a group with child groups yields their leaves in document order, first occurrences kept, its own name ignored |
| `KanjiVg.LeavesNonBlank` | CleanKanjiCsv.kts:133-134 | no leaf name is blank |
| `KanjiVg.KanjiVgComponents` | CleanKanjiCsv.kts:66-72 | the loop over the `<kanji>` elements computes the specification `ComponentMap` |
| `KanjiVg.ComponentMapKeys` | CleanKanjiCsv.kts:68-72 | a name is a key iff some element with a root group contributes it |
| `KanjiVg.ComponentMapLastWins` | CleanKanjiCsv.kts:72 | a name maps to the leaves of the last element that contributes it |
| `KanjiVg.OutputLines` | CleanKanjiCsv.kts:83-91 | one header line, then one row per entry in entry order |
| `KanjiVg.OutputRowReadsBack` | CleanKanjiCsv.kts:84-91 | a written row reads back as kanji, keyword, JLPT and components; its components field splits back into the leaves, or into nothing for a kanji KanjiVG lacks |

## Left out

- File reading is not modelled. This covers `readEntries`, `readHeisig`, `readSelection`, `readExclusionList`, `readGrades`, `readKanjiData` and `readTargetList`. The per-row parsing of the components field is modelled (`Csv.SplitComponents`); header lookup and skipping blank lines are not.
- File writing is not modelled: `writeOrderCsv`, `writeComponentLog` and the writer of `writeOutput`. Their row shapes are modelled through `Csv.Row` and `KanjiVg.OutputLines`.
- GZIP decompression and XML DOM parsing in `parseKanjiVgComponents` are foreign libraries. The DOM is modelled as an abstract `Node` tree, and a missing attribute is `None`.
- The entry points `RankNextKanjiMain.kt`, `BuildableListMain.kt` and `RankNextComponentByGradeMain.kt`, and the root `BuildKanjiFromComponentsTest.kt`, are not modelled. `RankNextComponentByGradeMain.kt` calls a five-argument `rankNextComponent` and a `scoreComponentSuggestion` function, and neither is part of this model.
- Console output is not modelled: every `println`, including the per-kanji listing of `ListComponents.kts` and the printouts of `BuildKanjiFromComponents.kt`. Warnings are returned as data.
- `uppercase()` is modelled on ASCII letters only. That is all the JLPT table can match.
- `isBlank` and `trim` use the JVM whitespace characters. Unicode categories beyond them are not modelled.
- `String.compareTo` compares UTF-16 code units. The model compares Dafny characters (code points), which agree on the Basic Multilingual Plane.
- Kotlin `Int` is 32-bit. Weight sums and order numbers are unbounded here: an overflow would need more than 21 million entries.
- Insertion order of the `LinkedHashSet` closures in `computeBuildable` and `collectComponents` only affects printing. Those closures are modelled as sets.
- Candidate order in `rankNextComponent` and key order in `buildComponentUsage` are modelled as sequences.
- Performance is out of scope, including the per-candidate recomputation in the rankers.
- The BuildKanjiFromComponents.kt copy of `computeBuildable` (lines 41-85) is identical to the KanjiLogic.kt copy. It is modelled once, in `KanjiLogic`.
- GenerateOrdering.BuildOrdering: the loop reads `currentBatchLabel.orEmpty()` as the label's value. The invariant proves the label is set whenever a batch is drained, so the empty fallback of `OrEmpty` never applies.
- GenerateOrdering.Generate: the writing of both output files is left out.
- ListComponents.CompositeNotSelfAdded: stated only for a symbol that is no component of any entry. A composite reached again through a cycle can add its own name.
