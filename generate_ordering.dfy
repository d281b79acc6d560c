/**
  * The greedy curriculum scheduler of GenerateOrdering.kts.
  *
  * Every corpus entry carries a weight from its JLPT level.  `buildOrdering`
  * alternates two steps until nothing remains: drain every remaining entry
  * whose components are all introduced (heaviest first, then by keyword,
  * then by kanji), or, when none is ready, introduce the one unused
  * component that makes the most weight ready on its own (`selectComponent`,
  * ranked by `isBetter`).  It stops early when no single component unlocks
  * anything.
  *
  * Kotlin's `Int` arithmetic is modelled unbounded: the weight sums cannot
  * wrap around here.
  */
module GenerateOrdering {
  import opened Text
  import opened Seqs
  import opened Sorting

  // ------------------------------------------------------------ weights

  /** `JLPT_WEIGHTS`. */
  const JlptWeights: map<string, int> := map["N5" := 100, "N4" := 70, "N3" := 40, "N2" := 20, "N1" := 10]

  /** `uppercase()` on the letters a-z; every other character is kept. */
  function AsciiUpper(s: string): (r: string)
    ensures |r| == |s|
    ensures forall i :: 0 <= i < |s| ==> r[i] == if 'a' <= s[i] <= 'z' then (s[i] as int - 32) as char else s[i]
  {
    seq(|s|, i requires 0 <= i < |s| => if 'a' <= s[i] <= 'z' then (s[i] as int - 32) as char else s[i])
  }

  /** Upper-casing twice is upper-casing once: no letter a-z upper-cases to
      another letter a-z. */
  lemma AsciiUpperIdempotent(s: string)
    ensures AsciiUpper(AsciiUpper(s)) == AsciiUpper(s)
  {
    var u := AsciiUpper(s);
    assert forall i :: 0 <= i < |u| ==> !('a' <= u[i] <= 'z');
  }

  /** `jlptWeight(level)`. */
  function JlptWeight(level: string): (r: int)
    ensures r >= 1
  {
    var normalized := AsciiUpper(level);
    if normalized in JlptWeights then JlptWeights[normalized] else 1
  }

  /** Every weight is one of the table's or the default 1, so at least 1;
      the table applies exactly to the levels that upper-case to its keys. */
  lemma JlptWeightRange(level: string)
    ensures JlptWeight(level) in {100, 70, 40, 20, 10, 1}
    ensures JlptWeight(level) == 1 <==> AsciiUpper(level) !in JlptWeights
  {
  }

  /** The lookup ignores case: a level weighs what its upper-cased form
      weighs. */
  lemma JlptWeightIgnoresCase(level: string)
    ensures JlptWeight(level) == JlptWeight(AsciiUpper(level))
  {
    AsciiUpperIdempotent(level);
  }

  /** "n5" and "N5" weigh 100, "n1" weighs 10, an empty or unknown level 1. */
  lemma JlptWeightExamples()
    ensures JlptWeight("n5") == 100 && JlptWeight("N5") == 100
    ensures JlptWeight("n4") == 70 && JlptWeight("n3") == 40 && JlptWeight("n2") == 20
    ensures JlptWeight("n1") == 10 && JlptWeight("") == 1 && JlptWeight("N6") == 1
  {
    assert AsciiUpper("n5") == "N5";
    assert AsciiUpper("N5") == "N5";
    assert AsciiUpper("n4") == "N4";
    assert AsciiUpper("n3") == "N3";
    assert AsciiUpper("n2") == "N2";
    assert AsciiUpper("n1") == "N1";
    assert AsciiUpper("N6") == "N6";
  }

  // ------------------------------------------------------------ entries

  datatype KanjiEntry = KanjiEntry(kanji: string, keyword: string, jlpt: string, components: seq<string>, weight: int)

  datatype OrderedKanji =
    OrderedKanji(kanji: string, keyword: string, jlpt: string, weight: int, introducedBy: string, components: seq<string>)

  datatype ComponentIntro = ComponentIntro(order: int, component: string, totalWeight: int, unlockedCount: int)

  datatype Candidate = Candidate(component: string, unlockedIndices: seq<nat>, totalWeight: int)

  /** The weights of the entries at `indices`. */
  function Weights(entries: seq<KanjiEntry>, indices: seq<nat>): (r: seq<int>)
    requires forall i :: 0 <= i < |indices| ==> indices[i] < |entries|
    ensures |r| == |indices|
    ensures forall i :: 0 <= i < |indices| ==> r[i] == entries[indices[i]].weight
  {
    seq(|indices|, i requires 0 <= i < |indices| => entries[indices[i]].weight)
  }

  // ------------------------------------------------------------ usage

  /** Entry `idx` lists `c` as a non-blank component. */
  predicate Uses(entries: seq<KanjiEntry>, idx: int, c: string) {
    0 <= idx < |entries| && c in entries[idx].components && !IsBlank(c)
  }

  /** Strictly ascending. */
  predicate Ascending(s: seq<nat>) {
    forall i, j :: 0 <= i < j < |s| ==> s[i] < s[j]
  }

  /** `usage` maps each non-blank component to the ascending indices of the
      entries using it, and `keys` lists its keys once each. */
  ghost predicate UsageOf(entries: seq<KanjiEntry>, usage: map<string, seq<nat>>, keys: seq<string>) {
    && NoDup(keys)
    && (forall c :: c in keys <==> c in usage)
    && (forall c :: c in usage ==> usage[c] != [] && Ascending(usage[c]))
    && (forall c, idx :: c in usage && idx in usage[c] ==> Uses(entries, idx, c))
    && (forall c, idx :: Uses(entries, idx, c) ==> c in usage && idx in usage[c])
  }

  /** `buildComponentUsage(entries)`; `keys` is the key order of the
      insertion-ordered map. */
  method BuildComponentUsage(entries: seq<KanjiEntry>) returns (usage: map<string, seq<nat>>, keys: seq<string>)
    ensures UsageOf(entries, usage, keys)
  {
    usage := map[];
    keys := [];
    for index := 0 to |entries|
      invariant NoDup(keys)
      invariant forall c :: c in keys <==> c in usage
      invariant forall c :: c in usage ==> usage[c] != [] && Ascending(usage[c])
      invariant forall c, idx :: c in usage && idx in usage[c] ==> Uses(entries, idx, c) && idx < index
      invariant forall c, idx :: Uses(entries, idx, c) && idx < index ==> c in usage && idx in usage[c]
    {
      usage, keys := RecordEntry(entries, index, usage, keys);
    }
  }

  /** The inner loop of `buildComponentUsage`: records entry `index`. */
  method RecordEntry(entries: seq<KanjiEntry>, index: nat, usage0: map<string, seq<nat>>, keys0: seq<string>)
    returns (usage: map<string, seq<nat>>, keys: seq<string>)
    requires index < |entries|
    requires NoDup(keys0)
    requires forall c :: c in keys0 <==> c in usage0
    requires forall c :: c in usage0 ==> usage0[c] != [] && Ascending(usage0[c])
    requires forall c, idx :: c in usage0 && idx in usage0[c] ==> Uses(entries, idx, c) && idx < index
    requires forall c, idx :: Uses(entries, idx, c) && idx < index ==> c in usage0 && idx in usage0[c]
    ensures NoDup(keys)
    ensures forall c :: c in keys <==> c in usage
    ensures forall c :: c in usage ==> usage[c] != [] && Ascending(usage[c])
    ensures forall c, idx :: c in usage && idx in usage[c] ==> Uses(entries, idx, c) && idx <= index
    ensures forall c, idx :: Uses(entries, idx, c) && idx <= index ==> c in usage && idx in usage[c]
  {
    usage, keys := usage0, keys0;
    var components := entries[index].components;
    for j := 0 to |components|
      invariant NoDup(keys)
      invariant forall c :: c in keys <==> c in usage
      invariant forall c :: c in usage ==> usage[c] != [] && Ascending(usage[c])
      invariant forall c, idx :: c in usage && idx in usage[c] ==> Uses(entries, idx, c) && idx <= index
      invariant forall c, idx :: Uses(entries, idx, c) && idx < index ==> c in usage && idx in usage[c]
      invariant forall c :: c in components[..j] && !IsBlank(c) ==> c in usage && index in usage[c]
    {
      var component := components[j];
      assert components[..j + 1] == components[..j] + [component];
      if IsBlank(component) {
        continue;
      }
      if component !in usage {
        NoDupSnoc(keys, component);
        keys := keys + [component];
        usage := usage[component := [index]];
      } else if index !in usage[component] {
        var indices := usage[component];
        assert forall k :: 0 <= k < |indices| ==> indices[k] < index by {
          forall k | 0 <= k < |indices| ensures indices[k] < index {
            assert indices[k] in usage[component];
          }
        }
        usage := usage[component := indices + [index]];
      }
    }
    assert components[..|components|] == components;
  }

  /** Appending a new element keeps a sequence duplicate-free. */
  lemma NoDupSnoc<T>(s: seq<T>, x: T)
    requires NoDup(s) && x !in s
    ensures NoDup(s + [x])
  {
  }

  // ------------------------------------------------------------ selection

  /** Entry `idx` is remaining and needs nothing beyond `component` and the
      introduced components. */
  predicate Unlocks(entries: seq<KanjiEntry>, remaining: set<nat>, introduced: set<string>,
                    component: string, idx: nat)
  {
    && idx in remaining
    && idx < |entries|
    && forall c :: c in entries[idx].components ==> c == component || c in introduced
  }

  function UnlocksBy(entries: seq<KanjiEntry>, remaining: set<nat>, introduced: set<string>,
                     component: string): nat -> bool
  {
    (idx: nat) => Unlocks(entries, remaining, introduced, component, idx)
  }

  /** The entries `component` unlocks, in usage order. */
  function Unlocked(entries: seq<KanjiEntry>, remaining: set<nat>, introduced: set<string>,
                    usage: map<string, seq<nat>>, component: string): (r: seq<nat>)
    requires component in usage
    ensures forall i :: 0 <= i < |r| ==> r[i] < |entries|
  {
    Filter(usage[component], UnlocksBy(entries, remaining, introduced, component))
  }

  /** The candidate `selectComponent` builds for `component`. */
  function CandidateFor(entries: seq<KanjiEntry>, remaining: set<nat>, introduced: set<string>,
                        usage: map<string, seq<nat>>, component: string): Candidate
    requires component in usage
  {
    var unlocked := Unlocked(entries, remaining, introduced, usage, component);
    Candidate(component, unlocked, Sum(Weights(entries, unlocked)))
  }

  /** A component `selectComponent` considers: unused, and unlocking
      something. */
  predicate Eligible(entries: seq<KanjiEntry>, remaining: set<nat>, introduced: set<string>,
                     usage: map<string, seq<nat>>, keys: seq<string>, component: string)
  {
    && component in keys
    && component in usage
    && component !in introduced
    && Unlocked(entries, remaining, introduced, usage, component) != []
  }

  /** `isBetter(candidate, best)` for a present `best`: more weight, then more
      entries, then the smaller name. */
  predicate Better(a: Candidate, b: Candidate) {
    if a.totalWeight != b.totalWeight then a.totalWeight > b.totalWeight
    else if |a.unlockedIndices| != |b.unlockedIndices| then |a.unlockedIndices| > |b.unlockedIndices|
    else StrLt(a.component, b.component)
  }

  /** `isBetter(candidate, currentBest)`: anything beats no best, weight
      decides first, and nothing beats itself. */
  function IsBetter(candidate: Candidate, currentBest: Option<Candidate>): (r: bool)
    ensures currentBest.None? ==> r
    ensures currentBest.Some? && candidate.totalWeight > currentBest.value.totalWeight ==> r
    ensures currentBest.Some? && candidate.totalWeight < currentBest.value.totalWeight ==> !r
    ensures currentBest == Some(candidate) ==> !r
  {
    match currentBest
    case None => true
    case Some(best) => StrLtIrreflexive(candidate.component); Better(candidate, best)
  }

  /** `Better` is a strict total order on candidates with distinct names. */
  lemma BetterOrder(a: Candidate, b: Candidate, c: Candidate)
    ensures !Better(a, a)
    ensures Better(a, b) ==> !Better(b, a)
    ensures Better(a, b) && Better(b, c) ==> Better(a, c)
    ensures a.component != b.component ==> Better(a, b) || Better(b, a)
  {
    StrLtIrreflexive(a.component);
    if Better(a, b) && a.totalWeight == b.totalWeight && |a.unlockedIndices| == |b.unlockedIndices| {
      StrLtAsymmetric(a.component, b.component);
    }
    if Better(a, b) && Better(b, c) && a.totalWeight == b.totalWeight == c.totalWeight
       && |a.unlockedIndices| == |b.unlockedIndices| == |c.unlockedIndices| {
      StrLtTransitive(a.component, b.component, c.component);
    }
    StrLtTotal(a.component, b.component);
  }

  /** `best` beats every other eligible component. */
  ghost predicate BestAmong(entries: seq<KanjiEntry>, remaining: set<nat>, introduced: set<string>,
                            usage: map<string, seq<nat>>, keys: seq<string>, best: Candidate)
  {
    && Eligible(entries, remaining, introduced, usage, keys, best.component)
    && best == CandidateFor(entries, remaining, introduced, usage, best.component)
    && forall c :: Eligible(entries, remaining, introduced, usage, keys, c) && c != best.component ==>
         Better(best, CandidateFor(entries, remaining, introduced, usage, c))
  }

  /** Whatever order the components are tried in, at most one candidate is
      best. */
  lemma BestUnique(entries: seq<KanjiEntry>, remaining: set<nat>, introduced: set<string>,
                   usage: map<string, seq<nat>>, keys: seq<string>, a: Candidate, b: Candidate)
    requires BestAmong(entries, remaining, introduced, usage, keys, a)
    requires BestAmong(entries, remaining, introduced, usage, keys, b)
    ensures a == b
  {
    if a.component != b.component {
      BetterOrder(a, b, b);
    }
  }

  /** `selectComponent(entries, remaining, introduced, allComponents, usage)`. */
  method SelectComponent(entries: seq<KanjiEntry>, remaining: set<nat>, introduced: set<string>,
                         allComponents: seq<string>, usage: map<string, seq<nat>>)
    returns (best: Option<Candidate>)
    requires forall c :: c in allComponents ==> c in usage
    ensures best.None? <==>
      forall c :: c in allComponents ==> !Eligible(entries, remaining, introduced, usage, allComponents, c)
    ensures best.Some? ==> BestAmong(entries, remaining, introduced, usage, allComponents, best.value)
  {
    best := None;
    for i := 0 to |allComponents|
      invariant best.None? <==>
        forall j :: 0 <= j < i ==> !Eligible(entries, remaining, introduced, usage, allComponents, allComponents[j])
      invariant best.Some? ==> best.value.component in allComponents[..i]
      invariant best.Some? ==> Eligible(entries, remaining, introduced, usage, allComponents, best.value.component)
      invariant best.Some? ==> best.value == CandidateFor(entries, remaining, introduced, usage, best.value.component)
      invariant best.Some? ==> forall j ::
        (0 <= j < i && Eligible(entries, remaining, introduced, usage, allComponents, allComponents[j])
         && allComponents[j] != best.value.component) ==>
          Better(best.value, CandidateFor(entries, remaining, introduced, usage, allComponents[j]))
    {
      var component := allComponents[i];
      if component in introduced {
        continue;
      }
      var unlocked := UnlockedBy(entries, remaining, introduced, usage, component);
      if unlocked == [] {
        continue;
      }
      var candidate := Candidate(component, unlocked, Sum(Weights(entries, unlocked)));
      if IsBetter(candidate, best) {
        if best.Some? {
          forall j | 0 <= j < i && Eligible(entries, remaining, introduced, usage, allComponents, allComponents[j])
                     && allComponents[j] != component
            ensures Better(candidate, CandidateFor(entries, remaining, introduced, usage, allComponents[j]))
          {
            var other := CandidateFor(entries, remaining, introduced, usage, allComponents[j]);
            if allComponents[j] != best.value.component {
              BetterOrder(candidate, best.value, other);
            }
          }
        }
        best := Some(candidate);
      } else {
        BetterOrder(candidate, best.value, best.value);
      }
    }
    if best.Some? {
      forall c | Eligible(entries, remaining, introduced, usage, allComponents, c) && c != best.value.component
        ensures Better(best.value, CandidateFor(entries, remaining, introduced, usage, c))
      {
        var j :| 0 <= j < |allComponents| && allComponents[j] == c;
      }
    } else {
      forall c | c in allComponents ensures !Eligible(entries, remaining, introduced, usage, allComponents, c) {
        var j :| 0 <= j < |allComponents| && allComponents[j] == c;
      }
    }
  }

  /** The inner loop of `selectComponent` over `usage[component]`. */
  method UnlockedBy(entries: seq<KanjiEntry>, remaining: set<nat>, introduced: set<string>,
                    usage: map<string, seq<nat>>, component: string)
    returns (unlocked: seq<nat>)
    requires component in usage
    ensures unlocked == Unlocked(entries, remaining, introduced, usage, component)
  {
    var indices := usage[component];
    var p := UnlocksBy(entries, remaining, introduced, component);
    unlocked := [];
    for k := 0 to |indices|
      invariant unlocked == Filter<nat>(indices[..k], p)
    {
      var idx := indices[k];
      FilterSnoc<nat>(indices[..k], idx, p);
      assert indices[..k + 1] == indices[..k] + [idx];
      if idx !in remaining {
        continue;
      }
      var canBuild := idx < |entries| && forall c :: c in entries[idx].components ==> c == component || c in introduced;
      if canBuild {
        unlocked := unlocked + [idx];
      }
    }
    assert indices[..|indices|] == indices;
  }

  /** The chosen component is unused, unlocks at least one remaining entry,
      and carries the summed weight of what it unlocks. */
  lemma SelectedFacts(entries: seq<KanjiEntry>, remaining: set<nat>, introduced: set<string>,
                      usage: map<string, seq<nat>>, keys: seq<string>, best: Candidate)
    requires BestAmong(entries, remaining, introduced, usage, keys, best)
    ensures best.component in keys && best.component !in introduced
    ensures best.unlockedIndices != []
    ensures forall idx :: idx in best.unlockedIndices ==>
      idx in remaining && idx < |entries| && idx in usage[best.component]
      && forall c :: c in entries[idx].components ==> c == best.component || c in introduced
    ensures best.totalWeight == Sum(Weights(entries, best.unlockedIndices))
  {
  }

  /** With weights of at least 1, as `jlptWeight` gives, a candidate's
      weight is at least the number of entries it unlocks. */
  lemma SelectedWeightAtLeastCount(entries: seq<KanjiEntry>, remaining: set<nat>, introduced: set<string>,
                                   usage: map<string, seq<nat>>, keys: seq<string>, best: Candidate)
    requires BestAmong(entries, remaining, introduced, usage, keys, best)
    requires forall i :: 0 <= i < |entries| ==> entries[i].weight >= 1
    ensures best.totalWeight >= |best.unlockedIndices| >= 1
  {
    SumAtLeastLength(Weights(entries, best.unlockedIndices));
  }

  // ------------------------------------------------------------ batches

  /** The `sortedWith` comparator of a batch: heavier first, then by
      keyword, then by kanji. */
  predicate EntryBefore(a: KanjiEntry, b: KanjiEntry) {
    if a.weight != b.weight then a.weight > b.weight
    else if a.keyword != b.keyword then StrLt(a.keyword, b.keyword)
    else StrLt(a.kanji, b.kanji)
  }

  /** `entries[idx]`, or a blank entry past the end. */
  function EntryAt(entries: seq<KanjiEntry>, idx: nat): KanjiEntry {
    if idx < |entries| then entries[idx] else KanjiEntry("", "", "", [], 0)
  }

  /** The batch comparator on entry indices. */
  function IndexOrder(entries: seq<KanjiEntry>): (nat, nat) -> bool {
    (a: nat, b: nat) => EntryBefore(EntryAt(entries, a), EntryAt(entries, b))
  }

  /** The batch order is a strict weak order, so the sort is well defined. */
  lemma IndexOrderIsStrictWeak(entries: seq<KanjiEntry>)
    ensures StrictWeakOrder(IndexOrder(entries))
  {
    forall a: KanjiEntry ensures !EntryBefore(a, a) {
      StrLtIrreflexive(a.kanji);
    }
    forall a, b, c | EntryBefore(a, b) && EntryBefore(b, c) ensures EntryBefore(a, c) {
      if a.weight == b.weight == c.weight {
        if a.keyword != b.keyword && b.keyword != c.keyword {
          StrLtTransitive(a.keyword, b.keyword, c.keyword);
          StrLtIrreflexive(a.keyword);
        } else if a.keyword == b.keyword == c.keyword {
          StrLtTransitive(a.kanji, b.kanji, c.kanji);
        }
      }
    }
    forall a, b, c | !EntryBefore(a, b) && !EntryBefore(b, c) ensures !EntryBefore(a, c) {
      StrLtTotal(a.keyword, b.keyword);
      StrLtTotal(b.keyword, c.keyword);
      StrLtTotal(a.kanji, b.kanji);
      StrLtTotal(b.kanji, c.kanji);
      if a.weight == b.weight == c.weight {
        if StrLt(c.keyword, b.keyword) && StrLt(b.keyword, a.keyword) {
          StrLtTransitive(c.keyword, b.keyword, a.keyword);
        }
        if StrLt(c.kanji, b.kanji) && StrLt(b.kanji, a.kanji) {
          StrLtTransitive(c.kanji, b.kanji, a.kanji);
        }
        if StrLt(a.keyword, c.keyword) {
          StrLtAsymmetric(a.keyword, c.keyword);
        }
        if StrLt(a.kanji, c.kanji) {
          StrLtAsymmetric(a.kanji, c.kanji);
        }
      }
    }
  }

  /** Entry `idx` is remaining and all its components are introduced. */
  predicate Ready(entries: seq<KanjiEntry>, remaining: set<nat>, introduced: set<string>, idx: nat) {
    && idx in remaining
    && idx < |entries|
    && forall c :: c in entries[idx].components ==> c in introduced
  }

  /** No remaining entry is ready: `available` is empty. */
  ghost predicate NothingReady(entries: seq<KanjiEntry>, remaining: set<nat>, introduced: set<string>) {
    forall idx: nat :: !Ready(entries, remaining, introduced, idx)
  }

  function ReadyIn(entries: seq<KanjiEntry>, remaining: set<nat>, introduced: set<string>): nat -> bool {
    (idx: nat) => Ready(entries, remaining, introduced, idx)
  }

  /** `remaining.filter { ... }`: the ready entries in ascending index
      order, which is the iteration order of `remaining` since it only ever
      loses elements. */
  function Available(entries: seq<KanjiEntry>, remaining: set<nat>, introduced: set<string>): (r: seq<nat>)
    ensures forall idx :: idx in r <==> Ready(entries, remaining, introduced, idx)
    ensures NoDup(r)
  {
    RangeFacts(|entries|);
    FilterNoDup(Range(|entries|), ReadyIn(entries, remaining, introduced));
    Filter(Range(|entries|), ReadyIn(entries, remaining, introduced))
  }

  lemma RangeFacts(n: nat)
    ensures NoDup(Range(n))
    ensures forall i: nat :: i < n ==> i in Range(n)
  {
    forall i: nat | i < n ensures i in Range(n) {
      assert Range(n)[i] == i;
    }
  }

  /** The label of a batch drained after `n` introductions. */
  function IntroLabel(log: seq<ComponentIntro>, n: nat): string
    requires n <= |log|
  {
    if n == 0 then "INITIAL" else log[n - 1].component
  }

  /** The components introduced by a log. */
  function LogComponents(log: seq<ComponentIntro>): (r: set<string>)
    ensures forall c :: c in r <==> exists j :: 0 <= j < |log| && log[j].component == c
  {
    set j | 0 <= j < |log| :: log[j].component
  }

  /** The row `buildOrdering` writes for `entry` in a batch labelled `introducedBy`. */
  function Scheduled(entry: KanjiEntry, introducedBy: string): OrderedKanji {
    OrderedKanji(entry.kanji, entry.keyword, entry.jlpt, entry.weight, introducedBy, entry.components)
  }

  /** The rows of a drained batch, in order. */
  function BatchRows(entries: seq<KanjiEntry>, batch: seq<nat>, introducedBy: string): (r: seq<OrderedKanji>)
    ensures |r| == |batch|
    ensures forall k :: 0 <= k < |batch| ==> r[k] == Scheduled(EntryAt(entries, batch[k]), introducedBy)
  {
    seq(|batch|, k requires 0 <= k < |batch| => Scheduled(EntryAt(entries, batch[k]), introducedBy))
  }

  /** The indices a batch lists. */
  function Members(s: seq<nat>): set<nat> {
    set x | x in s
  }

  /** The `for (idx in sorted)` loop of `buildOrdering`. */
  method DrainBatch(entries: seq<KanjiEntry>, sorted: seq<nat>, introducedBy: string,
                    ordered0: seq<OrderedKanji>, remaining0: set<nat>)
    returns (ordered: seq<OrderedKanji>, remaining: set<nat>)
    requires forall k :: 0 <= k < |sorted| ==> sorted[k] < |entries|
    ensures ordered == ordered0 + BatchRows(entries, sorted, introducedBy)
    ensures remaining == remaining0 - Members(sorted)
  {
    ordered, remaining := ordered0, remaining0;
    for k := 0 to |sorted|
      invariant ordered == ordered0 + BatchRows(entries, sorted[..k], introducedBy)
      invariant remaining == remaining0 - Members(sorted[..k])
    {
      var idx := sorted[k];
      var entry := entries[idx];
      ordered := ordered + [OrderedKanji(entry.kanji, entry.keyword, entry.jlpt, entry.weight, introducedBy, entry.components)];
      remaining := remaining - {idx};
      assert BatchRows(entries, sorted[..k + 1], introducedBy) == BatchRows(entries, sorted[..k], introducedBy) + [Scheduled(entry, introducedBy)];
      assert sorted[..k + 1] == sorted[..k] + [idx];
      assert Members(sorted[..k + 1]) == Members(sorted[..k]) + {idx};
    }
    assert sorted[..|sorted|] == sorted;
  }

  // ------------------------------------------------------------ the schedule

  /** Each written row is its entry labelled by the batch it was drained in
      (`batchOf[k]` introductions had happened then), and every component
      of that entry was introduced before the batch. */
  ghost predicate RowsAgree(entries: seq<KanjiEntry>, log: seq<ComponentIntro>, ordered: seq<OrderedKanji>,
                            scheduled: seq<nat>, batchOf: seq<nat>)
  {
    && |ordered| == |scheduled| == |batchOf|
    && forall k :: 0 <= k < |scheduled| ==>
         && scheduled[k] < |entries|
         && batchOf[k] <= |log|
         && ordered[k] == Scheduled(entries[scheduled[k]], IntroLabel(log, batchOf[k]))
         && forall c :: c in entries[scheduled[k]].components ==> c in LogComponents(log[..batchOf[k]])
  }

  /** No entry is written twice, and the written and the remaining entries
      split the corpus. */
  ghost predicate Partitioned(entries: seq<KanjiEntry>, remaining: set<nat>, scheduled: seq<nat>) {
    && NoDup(scheduled)
    && (forall idx :: idx in remaining ==> idx < |entries|)
    && (forall idx: nat :: idx < |entries| ==> (idx in remaining <==> idx !in scheduled))
  }

  /** Batches follow each other, and within one batch no row compares below
      an earlier one. */
  ghost predicate BatchesOrdered(entries: seq<KanjiEntry>, scheduled: seq<nat>, batchOf: seq<nat>) {
    forall k, l :: 0 <= k < l < |batchOf| && l < |scheduled| ==>
      && batchOf[k] <= batchOf[l]
      && (batchOf[k] == batchOf[l] ==> !EntryBefore(EntryAt(entries, scheduled[l]), EntryAt(entries, scheduled[k])))
  }

  /** The log numbers its entries 1, 2, ..., introduces each component of
      `allComponents` at most once, and each introduction unlocked something. */
  ghost predicate LogKept(keys: seq<string>, log: seq<ComponentIntro>, introduced: set<string>) {
    && (forall j :: 0 <= j < |log| ==>
          log[j].order == j + 1 && log[j].component in keys && log[j].unlockedCount >= 1)
    && (forall i, j :: 0 <= i < j < |log| ==> log[i].component != log[j].component)
    && introduced == LogComponents(log)
  }

  /** `currentBatchLabel`: set to "INITIAL" or to the last component until a
      batch is drained, cleared once one is; a selection always leaves
      something ready, so every introduction but the pending one has been
      followed by a batch. */
  ghost predicate LabelKept(entries: seq<KanjiEntry>, remaining: set<nat>, introduced: set<string>,
                            log: seq<ComponentIntro>, batchOf: seq<nat>, batchLabel: Option<string>)
  {
    && (batchLabel.Some? ==> batchLabel.value == IntroLabel(log, |log|) && forall k :: 0 <= k < |batchOf| ==> batchOf[k] < |log|)
    && (batchLabel.None? ==> |log| in batchOf && NothingReady(entries, remaining, introduced))
    && (batchLabel.Some? && |log| > 0 ==> !NothingReady(entries, remaining, introduced))
    && (forall j :: 1 <= j < |log| ==> j in batchOf)
  }

  /** The invariant of the `while` loop of `buildOrdering`. */
  ghost predicate Scheduling(entries: seq<KanjiEntry>, keys: seq<string>, remaining: set<nat>, introduced: set<string>,
                             log: seq<ComponentIntro>, ordered: seq<OrderedKanji>, scheduled: seq<nat>,
                             batchOf: seq<nat>, batchLabel: Option<string>)
  {
    && RowsAgree(entries, log, ordered, scheduled, batchOf)
    && Partitioned(entries, remaining, scheduled)
    && BatchesOrdered(entries, scheduled, batchOf)
    && LogKept(keys, log, introduced)
    && LabelKept(entries, remaining, introduced, log, batchOf, batchLabel)
  }

  /** The batch numbers of a drained batch of `n` rows. */
  function Tags(n: nat, batch: nat): (r: seq<nat>)
    ensures |r| == n && forall k :: 0 <= k < n ==> r[k] == batch
  {
    seq(n, _ => batch)
  }

  /** What a sorted batch holds: exactly the ready entries, once each. */
  lemma SortedBatch(entries: seq<KanjiEntry>, remaining: set<nat>, introduced: set<string>, sorted: seq<nat>)
    requires sorted == SortBy(Available(entries, remaining, introduced), IndexOrder(entries))
    ensures forall idx :: idx in sorted <==> Ready(entries, remaining, introduced, idx)
    ensures NoDup(sorted)
    ensures SortedBy(sorted, IndexOrder(entries))
  {
    var available := Available(entries, remaining, introduced);
    assert forall idx :: idx in sorted <==> idx in multiset(available);
    PermutationNoDup(available, sorted);
    IndexOrderIsStrictWeak(entries);
    SortBySorted(available, IndexOrder(entries));
  }

  /** Draining a batch appends its rows, labelled by the pending label,
      each of whose components was introduced before the batch. */
  lemma DrainKeepsRows(entries: seq<KanjiEntry>, remaining: set<nat>, introduced: set<string>,
                       log: seq<ComponentIntro>, ordered: seq<OrderedKanji>, scheduled: seq<nat>,
                       batchOf: seq<nat>, pending: string, sorted: seq<nat>)
    requires RowsAgree(entries, log, ordered, scheduled, batchOf)
    requires introduced == LogComponents(log) && pending == IntroLabel(log, |log|)
    requires forall idx :: idx in sorted ==> Ready(entries, remaining, introduced, idx)
    ensures forall k :: 0 <= k < |sorted| ==> sorted[k] < |entries|
    ensures RowsAgree(entries, log, ordered + BatchRows(entries, sorted, pending), scheduled + sorted,
                      batchOf + Tags(|sorted|, |log|))
  {
    assert log[..|log|] == log;
    assert forall k :: 0 <= k < |sorted| ==> sorted[k] in sorted;
    var ordered' := ordered + BatchRows(entries, sorted, pending);
    var scheduled' := scheduled + sorted;
    var batchOf' := batchOf + Tags(|sorted|, |log|);
    forall k | |scheduled| <= k < |scheduled'|
      ensures && scheduled'[k] < |entries|
              && batchOf'[k] <= |log|
              && ordered'[k] == Scheduled(entries[scheduled'[k]], IntroLabel(log, batchOf'[k]))
              && forall c :: c in entries[scheduled'[k]].components ==> c in LogComponents(log[..batchOf'[k]])
    {
      assert scheduled'[k] == sorted[k - |scheduled|] && batchOf'[k] == |log|;
      assert sorted[k - |scheduled|] in sorted;
    }
  }

  /** Draining a sorted batch after the earlier ones keeps the batch order. */
  lemma DrainKeepsOrder(entries: seq<KanjiEntry>, remaining: set<nat>, introduced: set<string>,
                        log: seq<ComponentIntro>, scheduled: seq<nat>, batchOf: seq<nat>, sorted: seq<nat>)
    requires BatchesOrdered(entries, scheduled, batchOf)
    requires |scheduled| == |batchOf| && forall k :: 0 <= k < |batchOf| ==> batchOf[k] < |log|
    requires SortedBy(sorted, IndexOrder(entries))
    ensures BatchesOrdered(entries, scheduled + sorted, batchOf + Tags(|sorted|, |log|))
  {
    var scheduled' := scheduled + sorted;
    var batchOf' := batchOf + Tags(|sorted|, |log|);
    forall k, l | 0 <= k < l < |batchOf'| && l < |scheduled'|
      ensures && batchOf'[k] <= batchOf'[l]
              && (batchOf'[k] == batchOf'[l] ==>
                    !EntryBefore(EntryAt(entries, scheduled'[l]), EntryAt(entries, scheduled'[k])))
    {
      if l < |scheduled| {
        assert scheduled'[k] == scheduled[k] && scheduled'[l] == scheduled[l];
        assert batchOf'[k] == batchOf[k] && batchOf'[l] == batchOf[l];
      } else if k < |scheduled| {
        assert batchOf'[k] == batchOf[k] < |log| == batchOf'[l];
      } else {
        assert scheduled'[k] == sorted[k - |scheduled|] && scheduled'[l] == sorted[l - |scheduled|];
        assert !IndexOrder(entries)(sorted[l - |scheduled|], sorted[k - |scheduled|]);
      }
    }
  }

  /** Draining a batch moves exactly the ready entries out of `remaining`,
      which shrinks, and leaves nothing ready. */
  lemma DrainKeepsPartition(entries: seq<KanjiEntry>, remaining: set<nat>, introduced: set<string>,
                            scheduled: seq<nat>, sorted: seq<nat>)
    requires Partitioned(entries, remaining, scheduled)
    requires sorted != [] && NoDup(sorted)
    requires forall idx :: idx in sorted <==> Ready(entries, remaining, introduced, idx)
    ensures Partitioned(entries, remaining - Members(sorted), scheduled + sorted)
    ensures NothingReady(entries, remaining - Members(sorted), introduced)
    ensures |remaining - Members(sorted)| < |remaining|
  {
    var rest := remaining - Members(sorted);
    forall i, j | 0 <= i < j < |scheduled + sorted| ensures (scheduled + sorted)[i] != (scheduled + sorted)[j] {
      if i < |scheduled| && j >= |scheduled| {
        assert (scheduled + sorted)[j] in sorted;
      }
    }
    var first := sorted[0];
    assert rest <= remaining - {first};
    SubsetNotLarger(rest, remaining - {first});
  }

  /** Draining the ready entries keeps the loop invariant and clears the
      label; it needs a pending label, which the invariant provides. */
  lemma DrainKeeps(entries: seq<KanjiEntry>, keys: seq<string>, remaining: set<nat>, introduced: set<string>,
                   log: seq<ComponentIntro>, ordered: seq<OrderedKanji>, scheduled: seq<nat>,
                   batchOf: seq<nat>, batchLabel: Option<string>, sorted: seq<nat>)
    requires Scheduling(entries, keys, remaining, introduced, log, ordered, scheduled, batchOf, batchLabel)
    requires sorted == SortBy(Available(entries, remaining, introduced), IndexOrder(entries))
    requires sorted != []
    ensures batchLabel.Some?
    ensures forall k :: 0 <= k < |sorted| ==> sorted[k] < |entries|
    ensures Scheduling(entries, keys, remaining - Members(sorted), introduced, log,
                       ordered + BatchRows(entries, sorted, batchLabel.value), scheduled + sorted,
                       batchOf + Tags(|sorted|, |log|), None)
    ensures |remaining - Members(sorted)| < |remaining|
  {
    SortedBatch(entries, remaining, introduced, sorted);
    assert Ready(entries, remaining, introduced, sorted[0]);
    DrainKeepsRows(entries, remaining, introduced, log, ordered, scheduled, batchOf, batchLabel.value, sorted);
    DrainKeepsOrder(entries, remaining, introduced, log, scheduled, batchOf, sorted);
    DrainKeepsPartition(entries, remaining, introduced, scheduled, sorted);
    assert (batchOf + Tags(|sorted|, |log|))[|batchOf|] == |log|;
  }

  /** Appending to the log adds its component. */
  lemma LogComponentsSnoc(log: seq<ComponentIntro>, intro: ComponentIntro)
    ensures LogComponents(log + [intro]) == LogComponents(log) + {intro.component}
  {
    assert (log + [intro])[|log|] == intro;
    forall c | c in LogComponents(log) ensures c in LogComponents(log + [intro]) {
      var j :| 0 <= j < |log| && log[j].component == c;
      assert (log + [intro])[j] == log[j];
    }
  }

  /** Introducing the selected component keeps the loop invariant, with the
      new component as the label. */
  lemma SelectKeeps(entries: seq<KanjiEntry>, usage: map<string, seq<nat>>, keys: seq<string>,
                    remaining: set<nat>, introduced: set<string>, log: seq<ComponentIntro>,
                    ordered: seq<OrderedKanji>, scheduled: seq<nat>, batchOf: seq<nat>,
                    batchLabel: Option<string>, best: Candidate)
    requires Scheduling(entries, keys, remaining, introduced, log, ordered, scheduled, batchOf, batchLabel)
    requires NothingReady(entries, remaining, introduced)
    requires BestAmong(entries, remaining, introduced, usage, keys, best)
    ensures Scheduling(entries, keys, remaining, introduced + {best.component},
                       log + [ComponentIntro(|log| + 1, best.component, best.totalWeight, |best.unlockedIndices|)],
                       ordered, scheduled, batchOf, Some(best.component))
  {
    var intro := ComponentIntro(|log| + 1, best.component, best.totalWeight, |best.unlockedIndices|);
    SelectedFacts(entries, remaining, introduced, usage, keys, best);
    LogComponentsSnoc(log, intro);
    SelectKeepsRows(entries, log, ordered, scheduled, batchOf, intro);
    SelectKeepsLabel(entries, remaining, introduced, log, batchOf, batchLabel, best.component, best.unlockedIndices[0]);
  }

  /** Rows written so far keep their labels once the log grows. */
  lemma SelectKeepsRows(entries: seq<KanjiEntry>, log: seq<ComponentIntro>, ordered: seq<OrderedKanji>,
                        scheduled: seq<nat>, batchOf: seq<nat>, intro: ComponentIntro)
    requires RowsAgree(entries, log, ordered, scheduled, batchOf)
    ensures RowsAgree(entries, log + [intro], ordered, scheduled, batchOf)
  {
    forall k | 0 <= k < |scheduled|
      ensures (log + [intro])[..batchOf[k]] == log[..batchOf[k]]
      ensures IntroLabel(log + [intro], batchOf[k]) == IntroLabel(log, batchOf[k])
    {
    }
  }

  /** After an introduction that makes entry `idx` ready, the label is the
      new component and every earlier introduction has had its batch. */
  lemma SelectKeepsLabel(entries: seq<KanjiEntry>, remaining: set<nat>, introduced: set<string>,
                         log: seq<ComponentIntro>, batchOf: seq<nat>, batchLabel: Option<string>,
                         component: string, idx: nat)
    requires LabelKept(entries, remaining, introduced, log, batchOf, batchLabel)
    requires forall k :: 0 <= k < |batchOf| ==> batchOf[k] <= |log|
    requires NothingReady(entries, remaining, introduced)
    requires idx in remaining && idx < |entries|
    requires forall c :: c in entries[idx].components ==> c == component || c in introduced
    ensures forall intro: ComponentIntro | intro.component == component ::
      LabelKept(entries, remaining, introduced + {component}, log + [intro], batchOf, Some(component))
  {
    assert Ready(entries, remaining, introduced + {component}, idx);
  }

  /** The unscheduled entries: what `remaining` holds at the end. */
  ghost function Unscheduled(entries: seq<KanjiEntry>, scheduled: seq<nat>): set<nat> {
    set idx: nat | idx < |entries| && idx !in scheduled
  }

  /** Strings in `compareTo` order. */
  function StrOrder(): (string, string) -> bool {
    (a: string, b: string) => StrLt(a, b)
  }

  /** The kanji `buildOrdering` warns about: those of the entries left in
      `remaining`, sorted. */
  function Leftover(entries: seq<KanjiEntry>, remaining: set<nat>): seq<string> {
    SortBy(LeftoverKanji(entries, remaining), StrOrder())
  }

  /** `remaining.map { entries[it].kanji }`, in ascending index order. */
  function LeftoverKanji(entries: seq<KanjiEntry>, remaining: set<nat>): (r: seq<string>)
    ensures forall k :: k in r <==> exists idx :: idx in remaining && idx < |entries| && entries[idx].kanji == k
  {
    var ids := Filter(Range(|entries|), (idx: nat) => idx in remaining);
    var r := seq(|ids|, k requires 0 <= k < |ids| => EntryAt(entries, ids[k]).kanji);
    RangeFacts(|entries|);
    LeftoverMembers(entries, remaining, ids, r);
    r
  }

  lemma LeftoverMembers(entries: seq<KanjiEntry>, remaining: set<nat>, ids: seq<nat>, r: seq<string>)
    requires forall idx :: idx in ids <==> idx in remaining && idx < |entries|
    requires |r| == |ids| && forall k :: 0 <= k < |ids| ==> r[k] == EntryAt(entries, ids[k]).kanji
    ensures forall k :: k in r <==> exists idx :: idx in remaining && idx < |entries| && entries[idx].kanji == k
  {
    forall k | k in r ensures exists idx :: idx in remaining && idx < |entries| && entries[idx].kanji == k {
      var i :| 0 <= i < |r| && r[i] == k;
      assert ids[i] in ids;
    }
    forall idx | idx in remaining && idx < |entries| ensures entries[idx].kanji in r {
      assert idx in ids;
      var i :| 0 <= i < |ids| && ids[i] == idx;
      assert r[i] == entries[idx].kanji;
    }
  }

  /** The warning lists the kanji of exactly the leftover entries, in
      ascending order. */
  lemma LeftoverSorted(entries: seq<KanjiEntry>, remaining: set<nat>)
    ensures SortedBy(Leftover(entries, remaining), StrOrder())
    ensures forall k :: k in Leftover(entries, remaining) <==>
      exists idx :: idx in remaining && idx < |entries| && entries[idx].kanji == k
  {
    forall a ensures !StrLt(a, a) {
      StrLtIrreflexive(a);
    }
    forall a, b, c | StrLt(a, b) && StrLt(b, c) ensures StrLt(a, c) {
      StrLtTransitive(a, b, c);
    }
    forall a, b, c | !StrLt(a, b) && !StrLt(b, c) ensures !StrLt(a, c) {
      StrLtTotal(a, b);
      StrLtTotal(b, c);
      if StrLt(c, b) && StrLt(b, a) {
        StrLtTransitive(c, b, a);
      }
      if StrLt(a, c) {
        StrLtAsymmetric(a, c);
      }
    }
    assert StrictWeakOrder(StrOrder());
    var kanji := LeftoverKanji(entries, remaining);
    SortBySorted(kanji, StrOrder());
    forall k ensures k in Leftover(entries, remaining) <==> k in kanji {
      assert k in Leftover(entries, remaining) <==> k in multiset(Leftover(entries, remaining));
      assert k in kanji <==> k in multiset(kanji);
    }
  }

  /** Every introduction is followed by a batch it labels. */
  lemma IntroductionsLabelRows(entries: seq<KanjiEntry>, log: seq<ComponentIntro>, ordered: seq<OrderedKanji>,
                               scheduled: seq<nat>, batchOf: seq<nat>)
    requires RowsAgree(entries, log, ordered, scheduled, batchOf)
    requires forall j :: 1 <= j <= |log| ==> j in batchOf
    ensures forall j :: 0 <= j < |log| ==> LabelsSomeRow(ordered, log[j].component)
  {
    forall j | 0 <= j < |log| ensures LabelsSomeRow(ordered, log[j].component) {
      assert j + 1 in batchOf;
      var k :| 0 <= k < |batchOf| && batchOf[k] == j + 1;
      assert ordered[k].introducedBy == IntroLabel(log, j + 1);
    }
  }

  /** Some row names `component` as what introduced it. */
  predicate LabelsSomeRow(ordered: seq<OrderedKanji>, component: string) {
    exists k :: 0 <= k < |ordered| && ordered[k].introducedBy == component
  }

  /** Before the loop: every entry remains, nothing is introduced, and the
      label is "INITIAL". */
  lemma Started(entries: seq<KanjiEntry>, keys: seq<string>)
    ensures Scheduling(entries, keys, Members(Range(|entries|)), {}, [], [], [], [], Some("INITIAL"))
  {
    RangeFacts(|entries|);
    assert LogComponents([]) == {};
  }

  /** Introducing a component not yet introduced leaves fewer to introduce. */
  lemma FewerLeft(keySet: set<string>, introduced: set<string>, c: string)
    requires c in keySet && c !in introduced
    ensures |keySet - (introduced + {c})| < |keySet - introduced|
  {
    assert keySet - (introduced + {c}) == (keySet - introduced) - {c};
  }

  /** When the loop ends, `remaining` holds the unscheduled entries, every
      introduction has had its batch, and either nothing is left or nothing
      is ready and no single component would unlock anything. */
  lemma Finished(entries: seq<KanjiEntry>, usage: map<string, seq<nat>>, keys: seq<string>,
                 remaining: set<nat>, introduced: set<string>, log: seq<ComponentIntro>,
                 ordered: seq<OrderedKanji>, scheduled: seq<nat>, batchOf: seq<nat>, batchLabel: Option<string>)
    requires Scheduling(entries, keys, remaining, introduced, log, ordered, scheduled, batchOf, batchLabel)
    requires remaining == {} ||
      (NothingReady(entries, remaining, introduced)
       && forall c :: c in keys ==> !Eligible(entries, remaining, introduced, usage, keys, c))
    ensures remaining == Unscheduled(entries, scheduled)
    ensures introduced == LogComponents(log)
    ensures forall j :: 1 <= j <= |log| ==> j in batchOf
  {
    if batchLabel.Some? && |log| > 0 {
      assert false;
    }
  }

  // ------------------------------------------------------------ the greedy run

  /** What each turn of the loop decides from: the remaining entries and the
      introduced components. */
  datatype Sched = Sched(remaining: set<nat>, introduced: set<string>)

  /** One turn of the loop: a drained batch, or an introduced component. */
  datatype Move = Drain(batch: seq<nat>) | Introduce(pick: Candidate)

  /** One greedy turn from `s` to `t`: when some entry is ready, all ready
      entries are drained in batch order; otherwise the best eligible
      component is introduced. */
  ghost predicate Turn(entries: seq<KanjiEntry>, usage: map<string, seq<nat>>, keys: seq<string>,
                       s: Sched, m: Move, t: Sched)
  {
    match m
    case Drain(batch) =>
      && Available(entries, s.remaining, s.introduced) != []
      && batch == SortBy(Available(entries, s.remaining, s.introduced), IndexOrder(entries))
      && t == Sched(s.remaining - Members(batch), s.introduced)
    case Introduce(pick) =>
      && Available(entries, s.remaining, s.introduced) == []
      && BestAmong(entries, s.remaining, s.introduced, usage, keys, pick)
      && t == Sched(s.remaining, s.introduced + {pick.component})
  }

  /** `states` and `moves` are a run of greedy turns from the start, where
      every entry remains and nothing is introduced. */
  ghost predicate GreedyRun(entries: seq<KanjiEntry>, usage: map<string, seq<nat>>, keys: seq<string>,
                            states: seq<Sched>, moves: seq<Move>)
  {
    && |states| == |moves| + 1
    && states[0] == Sched(Members(Range(|entries|)), {})
    && forall i :: 0 <= i < |moves| ==> Turn(entries, usage, keys, states[i], moves[i], states[i + 1])
  }

  /** The loop stops in `s`: nothing remains, or nothing is ready and no
      component is eligible. */
  ghost predicate Stopped(entries: seq<KanjiEntry>, usage: map<string, seq<nat>>, keys: seq<string>, s: Sched) {
    || s.remaining == {}
    || (&& Available(entries, s.remaining, s.introduced) == []
        && forall c :: c in keys ==> !Eligible(entries, s.remaining, s.introduced, usage, keys, c))
  }

  /** `currentBatchLabel` after `moves`. */
  function LabelAfter(moves: seq<Move>): Option<string> {
    if moves == [] then Some("INITIAL")
    else
      match moves[|moves| - 1]
      case Drain(_) => None
      case Introduce(pick) => Some(pick.component)
  }

  /** `orEmpty()`. */
  function OrEmpty(name: Option<string>): string {
    match name
    case Some(s) => s
    case None => ""
  }

  /** The rows `moves` write: each drained batch labelled by
      `currentBatchLabel.orEmpty()` at its turn. */
  function RowsOf(entries: seq<KanjiEntry>, moves: seq<Move>): seq<OrderedKanji>
    decreases |moves|
  {
    if moves == [] then []
    else
      var prior := moves[..|moves| - 1];
      match moves[|moves| - 1]
      case Drain(batch) => RowsOf(entries, prior) + BatchRows(entries, batch, OrEmpty(LabelAfter(prior)))
      case Introduce(_) => RowsOf(entries, prior)
  }

  /** The introduction log `moves` write, numbered from 1. */
  function LogOf(moves: seq<Move>): seq<ComponentIntro>
    decreases |moves|
  {
    if moves == [] then []
    else
      var prior := moves[..|moves| - 1];
      match moves[|moves| - 1]
      case Drain(_) => LogOf(prior)
      case Introduce(pick) =>
        LogOf(prior) + [ComponentIntro(|LogOf(prior)| + 1, pick.component, pick.totalWeight, |pick.unlockedIndices|)]
  }

  /** The loop's variables are the end of a greedy run and what it wrote. */
  ghost predicate Traced(entries: seq<KanjiEntry>, usage: map<string, seq<nat>>, keys: seq<string>,
                         states: seq<Sched>, moves: seq<Move>, remaining: set<nat>, introduced: set<string>,
                         ordered: seq<OrderedKanji>, log: seq<ComponentIntro>, batchLabel: Option<string>)
  {
    && GreedyRun(entries, usage, keys, states, moves)
    && states[|states| - 1] == Sched(remaining, introduced)
    && ordered == RowsOf(entries, moves)
    && log == LogOf(moves)
    && batchLabel == LabelAfter(moves)
  }

  /** A run extended by one more turn is a run. */
  lemma RunSnoc(entries: seq<KanjiEntry>, usage: map<string, seq<nat>>, keys: seq<string>,
                states: seq<Sched>, moves: seq<Move>, m: Move, t: Sched)
    requires GreedyRun(entries, usage, keys, states, moves)
    requires Turn(entries, usage, keys, states[|states| - 1], m, t)
    ensures GreedyRun(entries, usage, keys, states + [t], moves + [m])
    ensures (moves + [m])[..|moves|] == moves
  {
    var states', moves' := states + [t], moves + [m];
    forall i | 0 <= i < |moves'| ensures Turn(entries, usage, keys, states'[i], moves'[i], states'[i + 1]) {
      if i < |moves| {
        assert states'[i] == states[i] && moves'[i] == moves[i] && states'[i + 1] == states[i + 1];
      }
    }
  }

  /** Draining the sorted ready entries is a greedy turn. */
  lemma TracedDrain(entries: seq<KanjiEntry>, usage: map<string, seq<nat>>, keys: seq<string>,
                    states: seq<Sched>, moves: seq<Move>, remaining: set<nat>, introduced: set<string>,
                    ordered: seq<OrderedKanji>, log: seq<ComponentIntro>, batchLabel: Option<string>,
                    sorted: seq<nat>)
    requires Traced(entries, usage, keys, states, moves, remaining, introduced, ordered, log, batchLabel)
    requires Available(entries, remaining, introduced) != []
    requires sorted == SortBy(Available(entries, remaining, introduced), IndexOrder(entries))
    requires batchLabel.Some?
    ensures Traced(entries, usage, keys, states + [Sched(remaining - Members(sorted), introduced)],
                   moves + [Drain(sorted)], remaining - Members(sorted), introduced,
                   ordered + BatchRows(entries, sorted, batchLabel.value), log, None)
  {
    RunSnoc(entries, usage, keys, states, moves, Drain(sorted), Sched(remaining - Members(sorted), introduced));
  }

  /** Introducing the best eligible component when nothing is ready is a
      greedy turn. */
  lemma TracedIntroduce(entries: seq<KanjiEntry>, usage: map<string, seq<nat>>, keys: seq<string>,
                        states: seq<Sched>, moves: seq<Move>, remaining: set<nat>, introduced: set<string>,
                        ordered: seq<OrderedKanji>, log: seq<ComponentIntro>, batchLabel: Option<string>,
                        best: Candidate)
    requires Traced(entries, usage, keys, states, moves, remaining, introduced, ordered, log, batchLabel)
    requires Available(entries, remaining, introduced) == []
    requires BestAmong(entries, remaining, introduced, usage, keys, best)
    ensures Traced(entries, usage, keys, states + [Sched(remaining, introduced + {best.component})],
                   moves + [Introduce(best)], remaining, introduced + {best.component}, ordered,
                   log + [ComponentIntro(|log| + 1, best.component, best.totalWeight, |best.unlockedIndices|)],
                   Some(best.component))
  {
    RunSnoc(entries, usage, keys, states, moves, Introduce(best), Sched(remaining, introduced + {best.component}));
  }

  /** From any state, at most one greedy turn is possible. */
  lemma TurnDeterministic(entries: seq<KanjiEntry>, usage: map<string, seq<nat>>, keys: seq<string>,
                          s: Sched, m1: Move, t1: Sched, m2: Move, t2: Sched)
    requires Turn(entries, usage, keys, s, m1, t1)
    requires Turn(entries, usage, keys, s, m2, t2)
    ensures m1 == m2 && t1 == t2
  {
    if m1.Introduce? && m2.Introduce? {
      BestUnique(entries, s.remaining, s.introduced, usage, keys, m1.pick, m2.pick);
    }
  }

  /** No greedy turn leaves a state where the loop stops. */
  lemma StoppedHasNoTurn(entries: seq<KanjiEntry>, usage: map<string, seq<nat>>, keys: seq<string>,
                         s: Sched, m: Move, t: Sched)
    requires Stopped(entries, usage, keys, s)
    ensures !Turn(entries, usage, keys, s, m, t)
  {
  }

  /** The `i`-th turn of a run. */
  lemma RunTurn(entries: seq<KanjiEntry>, usage: map<string, seq<nat>>, keys: seq<string>,
                states: seq<Sched>, moves: seq<Move>, i: nat)
    requires GreedyRun(entries, usage, keys, states, moves)
    requires i < |moves|
    ensures Turn(entries, usage, keys, states[i], moves[i], states[i + 1])
  {
  }

  /** A greedy run that stops is unique: the schedule, the rows and the log
      depend on nothing but the corpus and its usage index. */
  lemma GreedyRunUnique(entries: seq<KanjiEntry>, usage: map<string, seq<nat>>, keys: seq<string>,
                        states1: seq<Sched>, moves1: seq<Move>,
                        states2: seq<Sched>, moves2: seq<Move>)
    requires GreedyRun(entries, usage, keys, states1, moves1)
    requires Stopped(entries, usage, keys, states1[|states1| - 1])
    requires GreedyRun(entries, usage, keys, states2, moves2)
    requires Stopped(entries, usage, keys, states2[|states2| - 1])
    ensures states1 == states2 && moves1 == moves2
  {
    var n := if |moves1| <= |moves2| then |moves1| else |moves2|;
    var i := 0;
    while i < n
      invariant 0 <= i <= n
      invariant forall j :: 0 <= j <= i ==> states1[j] == states2[j]
      invariant forall j :: 0 <= j < i ==> moves1[j] == moves2[j]
    {
      RunTurn(entries, usage, keys, states1, moves1, i);
      RunTurn(entries, usage, keys, states2, moves2, i);
      TurnDeterministic(entries, usage, keys, states1[i], moves1[i], states1[i + 1], moves2[i], states2[i + 1]);
      i := i + 1;
    }
    if n < |moves1| {
      RunTurn(entries, usage, keys, states1, moves1, n);
      StoppedHasNoTurn(entries, usage, keys, states2[n], moves1[n], states1[n + 1]);
    } else if n < |moves2| {
      RunTurn(entries, usage, keys, states2, moves2, n);
      StoppedHasNoTurn(entries, usage, keys, states1[n], moves2[n], states2[n + 1]);
    }
  }

  /** One kanji built from two components that nothing else uses. */
  function PairCorpus(): seq<KanjiEntry> {
    [KanjiEntry("X", "", "", ["p", "q"], 1)]
  }

  /** The schedule is not total, even on an acyclic corpus: in `PairCorpus`
      nothing is ready at the start and neither component alone unlocks the
      kanji, so the run stops before any turn with the kanji unresolved. */
  lemma SchedulerNotTotal()
    ensures UsageOf(PairCorpus(), map["p" := [0], "q" := [0]], ["p", "q"])
    ensures GreedyRun(PairCorpus(), map["p" := [0], "q" := [0]], ["p", "q"], [Sched({0}, {})], [])
    ensures Stopped(PairCorpus(), map["p" := [0], "q" := [0]], ["p", "q"], Sched({0}, {}))
  {
    PairUsage();
    assert Range(1) == [0];
    PairStuck("p", "q");
    PairStuck("q", "p");
    assert !Ready(PairCorpus(), {0}, {}, 0) by {
      assert "p" in PairCorpus()[0].components;
    }
  }

  /** The usage index of `PairCorpus`. */
  lemma PairUsage()
    ensures UsageOf(PairCorpus(), map["p" := [0], "q" := [0]], ["p", "q"])
  {
    assert PairCorpus()[0].components == ["p", "q"];
    assert !IsWhitespace("p"[0]) && !IsWhitespace("q"[0]);
  }

  /** Neither component of `PairCorpus` unlocks its kanji alone. */
  lemma PairStuck(c: string, other: string)
    requires {c, other} == {"p", "q"} && c != other
    ensures Unlocked(PairCorpus(), {0}, {}, map["p" := [0], "q" := [0]], c) == []
  {
    assert other in PairCorpus()[0].components;
    assert !Unlocks(PairCorpus(), {0}, {}, c, 0);
  }

  /** `buildOrdering(entries, usage)`, with `allComponents` the key order of
      `usage`.  Returns the written rows, the introduction log and the
      kanji of the warning; `scheduled` and `batchOf` record, for each row,
      the entry index and how many introductions preceded its batch, and
      `states` and `moves` are the greedy run the loop takes. */
  method BuildOrdering(entries: seq<KanjiEntry>, usage: map<string, seq<nat>>, allComponents: seq<string>)
    returns (ordered: seq<OrderedKanji>, introLog: seq<ComponentIntro>, unresolved: seq<string>,
             ghost scheduled: seq<nat>, ghost batchOf: seq<nat>, ghost states: seq<Sched>, ghost moves: seq<Move>)
    requires forall c :: c in allComponents <==> c in usage
    ensures GreedyRun(entries, usage, allComponents, states, moves)
    ensures states[|states| - 1] == Sched(Unscheduled(entries, scheduled), LogComponents(introLog))
    ensures Stopped(entries, usage, allComponents, states[|states| - 1])
    ensures ordered == RowsOf(entries, moves) && introLog == LogOf(moves)
    ensures RowsAgree(entries, introLog, ordered, scheduled, batchOf)
    ensures NoDup(scheduled)
    ensures BatchesOrdered(entries, scheduled, batchOf)
    ensures LogKept(allComponents, introLog, LogComponents(introLog))
    ensures forall j :: 1 <= j <= |introLog| ==> j in batchOf
    ensures var left := Unscheduled(entries, scheduled);
      left == {} ||
      (&& NothingReady(entries, left, LogComponents(introLog))
       && forall c :: c in allComponents ==> !Eligible(entries, left, LogComponents(introLog), usage, allComponents, c))
    ensures unresolved == Leftover(entries, Unscheduled(entries, scheduled))
  {
    var introduced: set<string> := {};
    var remaining := Members(Range(|entries|));
    Started(entries, allComponents);
    ordered, introLog := [], [];
    var batchLabel: Option<string> := Some("INITIAL");
    scheduled, batchOf := [], [];
    ghost var keySet := set c | c in allComponents;
    states, moves := [Sched(remaining, introduced)], [];
    while remaining != {}
      invariant Scheduling(entries, allComponents, remaining, introduced, introLog, ordered, scheduled, batchOf, batchLabel)
      invariant Traced(entries, usage, allComponents, states, moves, remaining, introduced, ordered, introLog, batchLabel)
      decreases |remaining|, |keySet - introduced|
    {
      var available := Available(entries, remaining, introduced);
      if available != [] {
        var sorted := SortBy(available, IndexOrder(entries));
        DrainKeeps(entries, allComponents, remaining, introduced, introLog, ordered, scheduled, batchOf, batchLabel, sorted);
        // `currentBatchLabel.orEmpty()`: the label is always set when a batch is drained
        var introducedBy := batchLabel.value;
        TracedDrain(entries, usage, allComponents, states, moves, remaining, introduced, ordered, introLog, batchLabel, sorted);
        states, moves := states + [Sched(remaining - Members(sorted), introduced)], moves + [Drain(sorted)];
        ordered, remaining := DrainBatch(entries, sorted, introducedBy, ordered, remaining);
        scheduled, batchOf := scheduled + sorted, batchOf + Tags(|sorted|, |introLog|);
        batchLabel := None;
        continue;
      }
      var candidate := SelectComponent(entries, remaining, introduced, allComponents, usage);
      if candidate.None? {
        break;
      }
      var best := candidate.value;
      SelectKeeps(entries, usage, allComponents, remaining, introduced, introLog, ordered, scheduled, batchOf,
                  batchLabel, best);
      FewerLeft(keySet, introduced, best.component);
      TracedIntroduce(entries, usage, allComponents, states, moves, remaining, introduced, ordered, introLog, batchLabel, best);
      states, moves := states + [Sched(remaining, introduced + {best.component})], moves + [Introduce(best)];
      introduced := introduced + {best.component};
      var orderNumber := |introLog| + 1;
      introLog := introLog + [ComponentIntro(orderNumber, best.component, best.totalWeight, |best.unlockedIndices|)];
      batchLabel := Some(best.component);
    }
    Finished(entries, usage, allComponents, remaining, introduced, introLog, ordered, scheduled, batchOf, batchLabel);
    unresolved := Leftover(entries, remaining);
  }

  /** `main` between reading the corpus and writing the files: the usage
      index and its key order, then the schedule, which is the one greedy
      run that stops (`GreedyRunUnique`). */
  method Generate(entries: seq<KanjiEntry>)
    returns (ordered: seq<OrderedKanji>, introLog: seq<ComponentIntro>, unresolved: seq<string>,
             usage: map<string, seq<nat>>, keys: seq<string>,
             ghost states: seq<Sched>, ghost moves: seq<Move>, ghost scheduled: seq<nat>, ghost batchOf: seq<nat>)
    ensures UsageOf(entries, usage, keys)
    ensures GreedyRun(entries, usage, keys, states, moves)
    ensures states[|states| - 1] == Sched(Unscheduled(entries, scheduled), LogComponents(introLog))
    ensures Stopped(entries, usage, keys, states[|states| - 1])
    ensures ordered == RowsOf(entries, moves) && introLog == LogOf(moves)
    ensures RowsAgree(entries, introLog, ordered, scheduled, batchOf)
    ensures NoDup(scheduled)
    ensures BatchesOrdered(entries, scheduled, batchOf)
    ensures LogKept(keys, introLog, LogComponents(introLog))
    ensures forall j :: 1 <= j <= |introLog| ==> j in batchOf
    ensures unresolved == Leftover(entries, Unscheduled(entries, scheduled))
  {
    usage, keys := BuildComponentUsage(entries);
    ordered, introLog, unresolved, scheduled, batchOf, states, moves := BuildOrdering(entries, usage, keys);
  }
}
