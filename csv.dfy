/**
  * The CSV line codec shared by every script: `parseCsvLine` (a quote-aware
  * state machine over one line), `escapeCsv` / `toCsvRow` (the writer), and
  * the `;`-separated components field the readers split and the writers
  * join with "; ".
  *
  * The writer quotes a field exactly when it holds ',', '"' or a line feed,
  * doubling each '"' inside, as section 2 of RFC 4180 describes; a carriage
  * return alone does not trigger quoting.  The parser toggles its quoted
  * state on any '"' that is not a doubled quote inside quotes, wherever it
  * stands in the field.
  */
module Csv {
  import opened Text
  import opened Seqs

  // ---------------------------------------------------------------- parse

  /** The cells `parseCsvLine` produces from the rest `s` of a line, in state
      `inQuotes`, with `buffer` holding the current cell so far. */
  function Cells(s: string, inQuotes: bool, buffer: string): (r: seq<string>)
    ensures |r| >= 1
    decreases |s|
  {
    if s == [] then [buffer]
    else if s[0] == '"' then
      if inQuotes && |s| >= 2 && s[1] == '"' then Cells(s[2..], inQuotes, buffer + ['"'])
      else Cells(s[1..], !inQuotes, buffer)
    else if s[0] == ',' && !inQuotes then [buffer] + Cells(s[1..], inQuotes, [])
    else Cells(s[1..], inQuotes, buffer + [s[0]])
  }

  /** The cells of a whole line. */
  function ParseLine(line: string): seq<string> {
    Cells(line, false, [])
  }

  /** `parseCsvLine(line)`. */
  method ParseCsvLine(line: string) returns (cells: seq<string>)
    ensures cells == ParseLine(line)
  {
    cells := [];
    var buffer: string := [];
    var inQuotes := false;
    var i := 0;
    while i < |line|
      invariant 0 <= i <= |line|
      invariant cells + Cells(line[i..], inQuotes, buffer) == ParseLine(line)
      decreases |line| - i
    {
      var ch := line[i];
      assert line[i..][0] == ch;
      if ch == '"' {
        if inQuotes && i + 1 < |line| && line[i + 1] == '"' {
          assert line[i..][2..] == line[i + 2..];
          buffer := buffer + ['"'];
          i := i + 1;
        } else {
          assert line[i..][1..] == line[i + 1..];
          inQuotes := !inQuotes;
        }
      } else if ch == ',' && !inQuotes {
        assert line[i..][1..] == line[i + 1..];
        AppendAssoc(cells, [buffer], Cells(line[i + 1..], inQuotes, []));
        cells := cells + [buffer];
        buffer := [];
      } else {
        assert line[i..][1..] == line[i + 1..];
        buffer := buffer + [ch];
      }
      i := i + 1;
    }
    assert line[i..] == [];
    cells := cells + [buffer];
  }

  /** The commas of `s` that separate cells: those met outside quotes, with a
      doubled quote inside quotes read as one quote character. */
  function SeparatingCommas(s: string, inQuotes: bool): nat
    decreases |s|
  {
    if s == [] then 0
    else if s[0] == '"' then
      if inQuotes && |s| >= 2 && s[1] == '"' then SeparatingCommas(s[2..], inQuotes)
      else SeparatingCommas(s[1..], !inQuotes)
    else if s[0] == ',' && !inQuotes then 1 + SeparatingCommas(s[1..], inQuotes)
    else SeparatingCommas(s[1..], inQuotes)
  }

  /** A line yields one cell more than it has separating commas. */
  lemma {:induction false} CellCount(s: string, inQuotes: bool, buffer: string)
    ensures |Cells(s, inQuotes, buffer)| == 1 + SeparatingCommas(s, inQuotes)
    decreases |s|
  {
    if s != [] {
      if s[0] == '"' {
        if inQuotes && |s| >= 2 && s[1] == '"' {
          CellCount(s[2..], inQuotes, buffer + ['"']);
        } else {
          CellCount(s[1..], !inQuotes, buffer);
        }
      } else if s[0] == ',' && !inQuotes {
        CellCount(s[1..], inQuotes, []);
      } else {
        CellCount(s[1..], inQuotes, buffer + [s[0]]);
      }
    }
  }

  /** On a line without quotes the parser is a plain split at every comma. */
  lemma {:induction false} QuoteFreeIsSplit(s: string, buffer: string)
    requires '"' !in s && ',' !in buffer
    ensures Cells(s, false, buffer) == SplitFrom(s, ',', buffer)
    decreases |s|
  {
    if s != [] {
      assert s[0] != '"';
      assert '"' !in s[1..];
      if s[0] == ',' {
        QuoteFreeIsSplit(s[1..], []);
      } else {
        QuoteFreeIsSplit(s[1..], buffer + [s[0]]);
      }
    }
  }

  /** `parseCsvLine` on a quote-free line is `split(',')`. */
  lemma ParseQuoteFreeLine(line: string)
    requires '"' !in line
    ensures ParseLine(line) == Split(line, ',')
  {
    QuoteFreeIsSplit(line, []);
  }

  // ---------------------------------------------------------------- write

  /** The characters that make `escapeCsv` quote a value. */
  predicate NeedsQuotes(value: string) {
    ',' in value || '"' in value || '\n' in value
  }

  /** `replace("\"", "\"\"")`: every quote doubled. */
  function DoubleQuotes(value: string): (r: string)
    ensures |r| >= |value|
  {
    if value == [] then []
    else if value[0] == '"' then ['"', '"'] + DoubleQuotes(value[1..])
    else [value[0]] + DoubleQuotes(value[1..])
  }

  /** `escapeCsv()`: a value without ',', '"' or a line feed is written as
      it is, and any other value is written between quotes. */
  function EscapeCsv(value: string): (r: string)
    ensures r == value <==> !NeedsQuotes(value)
    ensures NeedsQuotes(value) ==> |r| >= |value| + 2 && r[0] == '"' && r[|r| - 1] == '"'
  {
    if NeedsQuotes(value) then ['"'] + DoubleQuotes(value) + ['"'] else value
  }

  /** The cells after the first, each behind its ','. */
  function RowTail(cells: seq<string>): string {
    if cells == [] then [] else [','] + EscapeCsv(cells[0]) + RowTail(cells[1..])
  }

  /** `toCsvRow()`: the escaped cells joined by ','. */
  function Row(cells: seq<string>): string {
    if cells == [] then [] else EscapeCsv(cells[0]) + RowTail(cells[1..])
  }

  /** `List<String>.toCsvRow()`. */
  method ToCsvRow(cells: seq<string>) returns (row: string)
    ensures row == Row(cells)
  {
    row := [];
    for index := 0 to |cells|
      invariant index == 0 ==> row == []
      invariant index > 0 ==> row + RowTail(cells[index..]) == Row(cells)
    {
      var field := EscapeCsv(cells[index]);
      ghost var later := RowTail(cells[index + 1..]);
      assert cells[index..][1..] == cells[index + 1..];
      assert cells[index..][0] == cells[index];
      if index == 0 {
        row := field;
        assert row + later == Row(cells);
      } else {
        assert RowTail(cells[index..]) == [','] + field + later;
        ghost var before := row;
        row := row + ([','] + field);
        AppendAssoc(before, [','] + field, later);
        assert [','] + field + later == ([','] + field) + later;
      }
    }
    assert cells[|cells|..] == [];
  }

  // ----------------------------------------------------------- round trip

  /** Inside quotes, a quote-doubled value reads back as the value. */
  lemma {:induction false} ReadDoubled(value: string, rest: string, buffer: string)
    ensures Cells(DoubleQuotes(value) + rest, true, buffer) == Cells(rest, true, buffer + value)
    decreases |value|
  {
    if value == [] {
      assert DoubleQuotes(value) + rest == rest;
      assert buffer + value == buffer;
    } else {
      var tail := DoubleQuotes(value[1..]) + rest;
      var line := DoubleQuotes(value) + rest;
      if value[0] == '"' {
        assert line == ['"', '"'] + tail;
        assert line[0] == '"' && line[1] == '"' && line[2..] == tail;
        assert Cells(line, true, buffer) == Cells(tail, true, buffer + ['"']);
      } else {
        assert line == [value[0]] + tail;
        assert line[0] == value[0] && line[1..] == tail;
        assert Cells(line, true, buffer) == Cells(tail, true, buffer + [value[0]]);
      }
      ReadDoubled(value[1..], rest, buffer + [value[0]]);
      assert [value[0]] + value[1..] == value;
      AppendAssoc(buffer, [value[0]], value[1..]);
    }
  }

  /** A value that needs no quotes reads back character by character. */
  lemma {:induction false} ReadPlain(value: string, rest: string, buffer: string)
    requires !NeedsQuotes(value)
    ensures Cells(value + rest, false, buffer) == Cells(rest, false, buffer + value)
    decreases |value|
  {
    if value == [] {
      assert value + rest == rest;
      assert buffer + value == buffer;
    } else {
      assert (value + rest)[0] == value[0];
      assert (value + rest)[1..] == value[1..] + rest;
      assert !NeedsQuotes(value[1..]);
      ReadPlain(value[1..], rest, buffer + [value[0]]);
      assert [value[0]] + value[1..] == value;
      AppendAssoc(buffer, [value[0]], value[1..]);
    }
  }

  /** An escaped field followed by the end of the line or by ',' reads back
      as the original value. */
  lemma ReadField(value: string, rest: string)
    requires rest == [] || rest[0] == ','
    ensures Cells(EscapeCsv(value) + rest, false, []) == Cells(rest, false, value)
  {
    if NeedsQuotes(value) {
      assert EscapeCsv(value) + rest == ['"'] + (DoubleQuotes(value) + (['"'] + rest));
      ReadQuoted(value, rest);
    } else {
      ReadPlain(value, rest, []);
      assert [] + value == value;
    }
  }

  /** A quoted field followed by the end of the line or by ',' reads back as
      the value. */
  lemma ReadQuoted(value: string, rest: string)
    requires rest == [] || rest[0] == ','
    ensures Cells(['"'] + (DoubleQuotes(value) + (['"'] + rest)), false, []) == Cells(rest, false, value)
  {
    var body := DoubleQuotes(value) + (['"'] + rest);
    assert (['"'] + body)[1..] == body;
    ReadDoubled(value, ['"'] + rest, []);
    assert [] + value == value;
    assert (['"'] + rest)[1..] == rest;
  }

  lemma {:induction false} ReadRow(first: string, cells: seq<string>)
    ensures Cells(EscapeCsv(first) + RowTail(cells), false, []) == [first] + cells
    decreases |cells|
  {
    if cells == [] {
      assert EscapeCsv(first) + RowTail(cells) == EscapeCsv(first);
      ReadField(first, []);
      assert EscapeCsv(first) + [] == EscapeCsv(first);
    } else {
      var rest := RowTail(cells);
      ReadField(first, rest);
      var after := EscapeCsv(cells[0]) + RowTail(cells[1..]);
      assert rest == [','] + after;
      assert rest[1..] == after;
      ReadRow(cells[0], cells[1..]);
      assert [cells[0]] + cells[1..] == cells;
    }
  }

  /** Reading a written row gives back its cells, whatever they hold. */
  lemma RowRoundTrip(cells: seq<string>)
    requires cells != []
    ensures ParseLine(Row(cells)) == cells
  {
    ReadRow(cells[0], cells[1..]);
    assert [cells[0]] + cells[1..] == cells;
  }

  // ------------------------------------------------------ components field

  /** `map { it.trim() }`. */
  function TrimEach(parts: seq<string>): (r: seq<string>)
    ensures |r| == |parts|
    ensures forall i :: 0 <= i < |parts| ==> r[i] == Trim(parts[i])
  {
    seq(|parts|, i requires 0 <= i < |parts| => Trim(parts[i]))
  }

  /** The components field of a row as the readers split it: trimmed, cut at
      every ';', each piece trimmed, empty pieces dropped. */
  function SplitComponents(field: string): (r: seq<string>)
    ensures forall i :: 0 <= i < |r| ==> r[i] != []
    ensures IsBlank(field) ==> r == []
  {
    TrimFacts(field);
    var f := Trim(field);
    if f == [] then [] else Filter(TrimEach(Split(f, ';')), (p: string) => p != [])
  }

  /** A component the writers can emit and the readers recover: non-empty,
      with no whitespace at either end and no ';'. */
  predicate CleanComponent(c: string) {
    c != [] && IsTrimmed(c) && ';' !in c
  }

  /** Every component the reader yields is clean. */
  lemma SplitComponentsClean(field: string)
    ensures forall c :: c in SplitComponents(field) ==> CleanComponent(c)
  {
    var f := Trim(field);
    if f != [] {
      var parts := Split(f, ';');
      var pieces := TrimEach(parts);
      forall c | c in Filter(pieces, (p: string) => p != []) ensures CleanComponent(c) {
        var i :| 0 <= i < |pieces| && pieces[i] == c;
        var part := parts[i];
        assert ';' !in part;
        PieceClean(part);
        assert c == Trim(part);
      }
    }
  }

  /** A trimmed piece of a `;`-split is trimmed and `;`-free. */
  lemma PieceClean(piece: string)
    requires ';' !in piece
    ensures IsTrimmed(Trim(piece)) && ';' !in Trim(piece)
  {
    TrimFacts(piece);
    var t := TrimStart(piece);
    var r := TrimEnd(t);
    forall i | 0 <= i < |r| ensures r[i] != ';' {
      assert r[i] == t[i] == piece[|piece| - |t| + i];
    }
  }

  /** Leading whitespace does not survive `trim`. */
  lemma TrimLeadingSpace(c: string)
    requires c != [] && IsTrimmed(c)
    ensures Trim([' '] + c) == c
  {
    assert ([' '] + c)[1..] == c;
    assert TrimStart([' '] + c) == TrimStart(c);
    TrimFacts(c);
  }

  /** The writers' `joinToString("; ")` reads back as the same components. */
  lemma ComponentsRoundTrip(components: seq<string>)
    requires forall i :: 0 <= i < |components| ==> CleanComponent(components[i])
    ensures SplitComponents(Join(components, "; ")) == components
  {
    if components != [] {
      var joined := Join(components, "; ");
      JoinTrimmed(components);
      TrimFacts(joined);
      assert Trim(joined) == joined;
      SplitOfJoin(components);
      TrimPieces(components);
      FilterAll(components, (p: string) => p != []);
    }
  }

  /** The pieces `split(';')` cuts from the joined components. */
  lemma SplitOfJoin(components: seq<string>)
    requires components != []
    requires forall i :: 0 <= i < |components| ==> CleanComponent(components[i])
    ensures Split(Join(components, "; "), ';') == [components[0]] + Spaced(components[1..])
  {
    assert "; " == [';'] + [' '];
    forall i | 0 <= i < |components| ensures ';' !in components[i] {
      assert CleanComponent(components[i]);
    }
    SplitJoin(components, ';', [' ']);
    SpacedTail(components);
  }

  lemma SpacedTail(components: seq<string>)
    requires components != []
    ensures seq(|components| - 1, i requires 0 <= i < |components| - 1 => [' '] + components[i + 1])
            == Spaced(components[1..])
  {
    var pieces := seq(|components| - 1, i requires 0 <= i < |components| - 1 => [' '] + components[i + 1]);
    var spaced := Spaced(components[1..]);
    forall i | 0 <= i < |pieces| ensures pieces[i] == spaced[i] {
      assert components[1..][i] == components[i + 1];
    }
  }

  /** Each component behind the space the joiner leaves after ';'. */
  function Spaced(components: seq<string>): (r: seq<string>)
    ensures |r| == |components|
    ensures forall i :: 0 <= i < |components| ==> r[i] == [' '] + components[i]
  {
    seq(|components|, i requires 0 <= i < |components| => [' '] + components[i])
  }

  /** Trimming those pieces gives back the components. */
  lemma TrimPieces(components: seq<string>)
    requires components != []
    requires forall i :: 0 <= i < |components| ==> CleanComponent(components[i])
    ensures TrimEach([components[0]] + Spaced(components[1..])) == components
  {
    var spaced := Spaced(components[1..]);
    var pieces := [components[0]] + spaced;
    var trimmed := TrimEach(pieces);
    forall i | 0 <= i < |components| ensures trimmed[i] == components[i] {
      var c := components[i];
      assert CleanComponent(c);
      if i == 0 {
        TrimFacts(c);
      } else {
        assert pieces[i] == spaced[i - 1] == [' '] + c;
        TrimLeadingSpace(c);
      }
    }
  }

  /** A join of clean components is non-empty and trimmed. */
  lemma {:induction false} JoinTrimmed(components: seq<string>)
    requires components != []
    requires forall i :: 0 <= i < |components| ==> CleanComponent(components[i])
    ensures Join(components, "; ") != [] && IsTrimmed(Join(components, "; "))
  {
    assert CleanComponent(components[0]);
    if |components| > 1 {
      JoinTrimmed(components[1..]);
      var rest := Join(components[1..], "; ");
      var j := Join(components, "; ");
      assert j == components[0] + "; " + rest;
      assert j[0] == components[0][0];
      assert j[|j| - 1] == rest[|rest| - 1];
    }
  }

  /** Filtering by a predicate every element meets changes nothing. */
  lemma {:induction false} FilterAll<T(!new)>(s: seq<T>, p: T -> bool)
    requires forall i :: 0 <= i < |s| ==> p(s[i])
    ensures Filter(s, p) == s
  {
    if s != [] {
      FilterAll(s[1..], p);
    }
  }
}
