/**
  * The checks `main` in BuildKanjiFromComponents.kt runs around
  * `computeBuildable`: an empty selection is fatal; selected kanji absent
  * from the corpus only draw a warning and are still expanded.
  */
module BuildKanjiFromComponents {
  import opened Seqs
  import opened KanjiLogic

  /** How a run ends: a fatal error, or the warnings and the result. */
  datatype Outcome = Fatal(message: string) | Report(missing: seq<string>, result: BuildResult)

  /** Some corpus row carries kanji `k`. */
  predicate InCorpus(rows: seq<KanjiEntry>, k: string) {
    exists i :: 0 <= i < |rows| && rows[i].kanji == k
  }

  /** The selected kanji `main` warns about, in selection order, repeats kept. */
  function Missing(rows: seq<KanjiEntry>, selection: seq<string>): (r: seq<string>)
    ensures forall k :: k in r <==> k in selection && !InCorpus(rows, k)
  {
    Filter(selection, k => !InCorpus(rows, k))
  }

  /** `main` once the three files are read. */
  method Run(rows: seq<KanjiEntry>, selection: seq<string>, exclusions: seq<string>)
    returns (outcome: Outcome)
    ensures outcome.Fatal? <==> selection == []
    ensures outcome.Report? ==> outcome.missing == Missing(rows, selection)
    ensures outcome.Report? ==> outcome.result == Build(rows, selection, exclusions)
  {
    if selection == [] {
      return Fatal("No kanji found in kanji-selection.csv");
    }
    var missing := [];
    for index := 0 to |selection|
      invariant missing == Missing(rows, selection[..index])
    {
      var kanji := selection[index];
      var found := false;
      for j := 0 to |rows|
        invariant found <==> exists i :: 0 <= i < j && rows[i].kanji == kanji
      {
        if rows[j].kanji == kanji {
          found := true;
        }
      }
      FilterSnoc(selection[..index], kanji, k => !InCorpus(rows, k));
      assert selection[..index + 1] == selection[..index] + [kanji];
      if !found {
        missing := missing + [kanji];
      }
    }
    assert selection[..|selection|] == selection;
    var result := ComputeBuildable(rows, selection, exclusions);
    return Report(missing, result);
  }

  /** A selected kanji that only drew a warning is still expanded: it is in
      the collected components. */
  lemma MissingStillExpanded(rows: seq<KanjiEntry>, selection: seq<string>,
                             exclusions: seq<string>, k: string)
    requires k in Missing(rows, selection)
    ensures k in Build(rows, selection, exclusions).components
  {
    assert forall i :: 0 <= i < |rows| ==> rows[i].kanji != k;
    AbsentSeedInClosure(rows, selection, k);
  }

  /** An excluded kanji is never buildable, whatever the closure holds. */
  lemma ExcludedNeverBuildable(rows: seq<KanjiEntry>, selection: seq<string>,
                               exclusions: seq<string>, e: KanjiEntry)
    requires e.kanji in exclusions
    ensures e !in Build(rows, selection, exclusions).buildable
  {
    BuildableExactly(rows, selection, exclusions);
  }
}
