/**
  * The KanjiVG side of CleanKanjiCsv.kts over an abstract document tree:
  * `getElementName`, `firstChildGroup`, `extractLeafComponents`, the loop
  * that turns the `<kanji>` elements into a component map, and the rows
  * `writeOutput` emits.
  *
  * A node is an element (its tag, its `element` attribute in the KanjiVG
  * namespace, its `kvg:element` attribute, its children) or any other DOM
  * node (text, comment, ...).  An attribute the element does not carry is
  * `None`; the DOM reports it as an empty string, which the code treats as
  * blank either way.
  */
module KanjiVg {
  import opened Text
  import opened Seqs
  import Csv

  datatype Node =
    | Element(tag: string, element: Option<string>, kvgElement: Option<string>, children: seq<Node>)
    | Other

  /** A `<g>` element child. */
  predicate IsGroup(n: Node) {
    n.Element? && n.tag == "g"
  }

  /** `getElementName`: the namespaced `element` attribute if non-blank, else
      `kvg:element` if non-blank, else nothing. */
  function GetElementName(n: Node): (r: Option<string>)
    requires n.Element?
    ensures r.Some? ==> !IsBlank(r.value)
    ensures r.Some? ==> r == n.element || r == n.kvgElement
    ensures n.element.Some? && !IsBlank(n.element.value) ==> r == n.element
    ensures r.None? <==> (n.element.None? || IsBlank(n.element.value))
                         && (n.kvgElement.None? || IsBlank(n.kvgElement.value))
  {
    if n.element.Some? && !IsBlank(n.element.value) then n.element
    else if n.kvgElement.Some? && !IsBlank(n.kvgElement.value) then n.kvgElement
    else None
  }

  /** The position of the first `<g>` element among `children`, or
      `|children|` when there is none. */
  function FirstGroupIndex(children: seq<Node>): (r: nat)
    ensures r <= |children|
    ensures forall j :: 0 <= j < r ==> !IsGroup(children[j])
    ensures r < |children| ==> IsGroup(children[r])
  {
    if children == [] || IsGroup(children[0]) then 0
    else 1 + FirstGroupIndex(children[1..])
  }

  /** The first `<g>` element among `children`. */
  function FirstGroup(children: seq<Node>): Option<Node> {
    var i := FirstGroupIndex(children);
    if i < |children| then Some(children[i]) else None
  }

  /** `firstChildGroup`. */
  method FirstChildGroup(n: Node) returns (r: Option<Node>)
    requires n.Element?
    ensures r == FirstGroup(n.children)
  {
    var children := n.children;
    for i := 0 to |children|
      invariant FirstGroup(children[i..]) == FirstGroup(children)
    {
      assert children[i..][1..] == children[i + 1..];
      if children[i].Element? && children[i].tag == "g" {
        return Some(children[i]);
      }
    }
    assert children[|children|..] == [];
    return None;
  }

  /** Some child is a `<g>` element. */
  predicate HasGroupChild(n: Node)
    requires n.Element?
  {
    exists k :: 0 <= k < |n.children| && IsGroup(n.children[k])
  }

  /** The leaf list of a node, as `extractLeafComponents` builds it. */
  function Leaves(n: Node): (r: seq<string>)
    ensures NoDup(r)
    decreases n, 1, 0
  {
    if !n.Element? then []
    else if HasGroupChild(n) then ChildLeaves(n, |n.children|)
    else match GetElementName(n) case Some(name) => [name] case None => []
  }

  /** The leaf lists of the `<g>` children among the first `k` children,
      merged in document order keeping first occurrences. */
  function ChildLeaves(n: Node, k: nat): (r: seq<string>)
    requires n.Element? && k <= |n.children|
    ensures NoDup(r)
    decreases n, 0, k
  {
    if k == 0 then []
    else
      var child := n.children[k - 1];
      var before := ChildLeaves(n, k - 1);
      if IsGroup(child) then AddAll(before, Leaves(child)) else before
  }

  /** `extractLeafComponents(node)`. */
  method ExtractLeafComponents(n: Node) returns (leafNames: seq<string>)
    requires n.Element?
    ensures leafNames == Leaves(n)
    decreases n
  {
    var children := n.children;
    leafNames := [];
    var hasChildGroup := false;
    for i := 0 to |children|
      invariant leafNames == ChildLeaves(n, i)
      invariant hasChildGroup <==> exists k :: 0 <= k < i && IsGroup(children[k])
      invariant !hasChildGroup ==> leafNames == []
    {
      var child := children[i];
      if child.Element? && child.tag == "g" {
        hasChildGroup := true;
        assert child in n.children;
        var sub := ExtractLeafComponents(child);
        leafNames := AddAll(leafNames, sub);
      }
    }
    assert hasChildGroup <==> HasGroupChild(n);
    if !hasChildGroup {
      var name := GetElementName(n);
      if name.Some? {
        // The set is still empty here, so the add is an append.
        leafNames := leafNames + [name.value];
      }
    }
  }

  // ------------------------------------------------------------ properties

  /** A node without `<g>` children yields its own name if it has one, and
      nothing otherwise. */
  lemma LeafGroup(n: Node)
    requires n.Element? && !HasGroupChild(n)
    ensures GetElementName(n).Some? ==> Leaves(n) == [GetElementName(n).value]
    ensures GetElementName(n).None? ==> Leaves(n) == []
    ensures forall x :: x in Leaves(n) ==> !IsBlank(x)
  {
  }

  /** The concatenated leaf lists of the `<g>` children among the first `k`
      children. */
  function GroupLeaves(n: Node, k: nat): seq<string>
    requires n.Element? && k <= |n.children|
  {
    if k == 0 then []
    else GroupLeaves(n, k - 1) + (if IsGroup(n.children[k - 1]) then Leaves(n.children[k - 1]) else [])
  }

  /** A node with `<g>` children yields its children's leaf lists
      concatenated in document order, first occurrences kept, its own name
      ignored. */
  lemma {:induction false} ChildLeavesDistinct(n: Node, k: nat)
    requires n.Element? && k <= |n.children|
    ensures ChildLeaves(n, k) == Distinct(GroupLeaves(n, k))
  {
    if k > 0 {
      ChildLeavesDistinct(n, k - 1);
      var child := n.children[k - 1];
      var extra := if IsGroup(child) then Leaves(child) else [];
      AddAllSplit([], GroupLeaves(n, k - 1), extra);
      if !IsGroup(child) {
        assert AddAll(ChildLeaves(n, k - 1), []) == ChildLeaves(n, k - 1);
      }
    }
  }

  lemma CompositeGroup(n: Node)
    requires n.Element? && HasGroupChild(n)
    ensures Leaves(n) == Distinct(GroupLeaves(n, |n.children|))
  {
    ChildLeavesDistinct(n, |n.children|);
  }

  /** Every leaf is a non-blank name. */
  lemma {:induction false} LeavesNonBlank(n: Node)
    ensures forall x :: x in Leaves(n) ==> !IsBlank(x)
    decreases n, 1, 0
  {
    if n.Element? && HasGroupChild(n) {
      ChildLeavesNonBlank(n, |n.children|);
    }
  }

  lemma {:induction false} ChildLeavesNonBlank(n: Node, k: nat)
    requires n.Element? && k <= |n.children|
    ensures forall x :: x in ChildLeaves(n, k) ==> !IsBlank(x)
    decreases n, 0, k
  {
    if k > 0 {
      ChildLeavesNonBlank(n, k - 1);
      if IsGroup(n.children[k - 1]) {
        LeavesNonBlank(n.children[k - 1]);
      }
    }
  }

  // ------------------------------------------------------------ component map

  /** What one `<kanji>` element contributes to the map: the name of its
      first `<g>` child and that group's leaves, if both exist. */
  function Contribution(k: Node): Option<(string, seq<string>)> {
    if !k.Element? then None
    else match FirstGroup(k.children)
      case None => None
      case Some(root) =>
        match GetElementName(root)
        case None => None
        case Some(name) => Some((name, Leaves(root)))
  }

  /** The map the loop over the `<kanji>` elements builds: a later element
      overwrites an earlier one with the same name. */
  function ComponentMap(kanjiNodes: seq<Node>): map<string, seq<string>> {
    if kanjiNodes == [] then map[]
    else
      var m := ComponentMap(kanjiNodes[..|kanjiNodes| - 1]);
      match Contribution(kanjiNodes[|kanjiNodes| - 1])
      case Some(c) => m[c.0 := c.1]
      case None => m
  }

  /** The loop of `parseKanjiVgComponents` over the `<kanji>` elements. */
  method KanjiVgComponents(kanjiNodes: seq<Node>) returns (result: map<string, seq<string>>)
    ensures result == ComponentMap(kanjiNodes)
  {
    result := map[];
    for i := 0 to |kanjiNodes|
      invariant result == ComponentMap(kanjiNodes[..i])
    {
      var kanjiElement := kanjiNodes[i];
      assert kanjiNodes[..i + 1][..i] == kanjiNodes[..i];
      if !kanjiElement.Element? {
        continue;
      }
      var rootGroup := FirstChildGroup(kanjiElement);
      if rootGroup == None {
        continue;
      }
      var kanjiChar := GetElementName(rootGroup.value);
      if kanjiChar == None {
        continue;
      }
      var components := ExtractLeafComponents(rootGroup.value);
      result := result[kanjiChar.value := components];
    }
    assert kanjiNodes[..|kanjiNodes|] == kanjiNodes;
  }

  /** The map's keys are exactly the names the elements contribute, and each
      maps to the leaves contributed by the last element with that name. */
  lemma {:induction false} ComponentMapLastWins(kanjiNodes: seq<Node>, i: nat)
    requires i < |kanjiNodes| && Contribution(kanjiNodes[i]).Some?
    requires forall j :: i < j < |kanjiNodes| && Contribution(kanjiNodes[j]).Some? ==>
               Contribution(kanjiNodes[j]).value.0 != Contribution(kanjiNodes[i]).value.0
    ensures var c := Contribution(kanjiNodes[i]).value;
      c.0 in ComponentMap(kanjiNodes) && ComponentMap(kanjiNodes)[c.0] == c.1
  {
    var last := |kanjiNodes| - 1;
    if i < last {
      var prefix := kanjiNodes[..last];
      assert forall j :: i < j < |prefix| ==> prefix[j] == kanjiNodes[j];
      ComponentMapLastWins(prefix, i);
    }
  }

  lemma {:induction false} ComponentMapKeys(kanjiNodes: seq<Node>, name: string)
    ensures name in ComponentMap(kanjiNodes) <==>
      exists i :: 0 <= i < |kanjiNodes| && Contribution(kanjiNodes[i]).Some?
                  && Contribution(kanjiNodes[i]).value.0 == name
  {
    if kanjiNodes != [] {
      var last := |kanjiNodes| - 1;
      var prefix := kanjiNodes[..last];
      ComponentMapKeys(prefix, name);
      if exists i :: 0 <= i < last && Contribution(prefix[i]).Some? && Contribution(prefix[i]).value.0 == name {
        var i :| 0 <= i < last && Contribution(prefix[i]).Some? && Contribution(prefix[i]).value.0 == name;
        assert kanjiNodes[i] == prefix[i];
      }
    }
  }

  // ------------------------------------------------------------ output rows

  /** A row of the Heisig list: kanji, keyword, JLPT level. */
  datatype HeisigEntry = HeisigEntry(kanji: string, keyword: string, jlpt: string)

  /** The cells `writeOutput` writes for an entry: its three fields and its
      leaf components joined by "; ", empty when KanjiVG has no entry. */
  function OutputRow(entry: HeisigEntry, components: map<string, seq<string>>): seq<string> {
    var direct := if entry.kanji in components then components[entry.kanji] else [];
    [entry.kanji, entry.keyword, entry.jlpt, Join(direct, "; ")]
  }

  /** The header and the rows `writeOutput` writes. */
  function OutputLines(entries: seq<HeisigEntry>, components: map<string, seq<string>>): (r: seq<string>)
    ensures |r| == |entries| + 1
    ensures r[0] == "kanji,keyword_6th_ed,jlpt,components"
    ensures forall i :: 0 <= i < |entries| ==> r[i + 1] == Csv.Row(OutputRow(entries[i], components))
  {
    ["kanji,keyword_6th_ed,jlpt,components"]
      + seq(|entries|, i requires 0 <= i < |entries| => Csv.Row(OutputRow(entries[i], components)))
  }

  /** A written row reads back as its four cells, and its components field
      splits back into the leaves (none for a kanji KanjiVG lacks). */
  lemma OutputRowReadsBack(entry: HeisigEntry, components: map<string, seq<string>>)
    requires entry.kanji in components ==>
      forall i :: 0 <= i < |components[entry.kanji]| ==> Csv.CleanComponent(components[entry.kanji][i])
    ensures Csv.ParseLine(Csv.Row(OutputRow(entry, components))) == OutputRow(entry, components)
    ensures entry.kanji !in components ==> Csv.SplitComponents(OutputRow(entry, components)[3]) == []
    ensures entry.kanji in components ==>
      Csv.SplitComponents(OutputRow(entry, components)[3]) == components[entry.kanji]
  {
    Csv.RowRoundTrip(OutputRow(entry, components));
    if entry.kanji in components {
      Csv.ComponentsRoundTrip(components[entry.kanji]);
    } else {
      assert Join([], "; ") == [];
      TrimFacts([]);
    }
  }
}
