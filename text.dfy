/**
  * Strings as the Kotlin sources use them: `isBlank`, `trim`, `split(';')`,
  * `joinToString` and the ordering of `String.compareTo`.
  *
  * A Kotlin `String` is a sequence of UTF-16 code units; here it is a
  * `seq<char>`.  Whitespace is the JVM notion used by `Char.isWhitespace`
  * (`Character.isWhitespace` or `Character.isSpaceChar`).
  */
module Text {

  /** Kotlin `Char.isWhitespace` on the JVM, written out code point by code point. */
  predicate IsWhitespace(c: char) {
    || c == ' ' || c == '\t' || c == '\n' || c == '\r'
    || c == '\U{000B}' || c == '\U{000C}'
    || ('\U{001C}' <= c <= '\U{001F}')
    || c == '\U{00A0}' || c == '\U{1680}'
    || ('\U{2000}' <= c <= '\U{200A}')
    || c == '\U{2028}' || c == '\U{2029}' || c == '\U{202F}' || c == '\U{205F}'
    || c == '\U{3000}'
  }

  /** Kotlin `CharSequence.isBlank()`: empty, or whitespace only. */
  predicate IsBlank(s: string) {
    forall i :: 0 <= i < |s| ==> IsWhitespace(s[i])
  }

  /** Kotlin `trimStart()`: drops leading whitespace. */
  function TrimStart(s: string): (r: string)
    ensures |r| <= |s| && r == s[|s| - |r|..]
    ensures r == [] || !IsWhitespace(r[0])
    ensures forall i :: 0 <= i < |s| - |r| ==> IsWhitespace(s[i])
  {
    if s != [] && IsWhitespace(s[0]) then TrimStart(s[1..]) else s
  }

  /** Kotlin `trimEnd()`: drops trailing whitespace. */
  function TrimEnd(s: string): (r: string)
    ensures |r| <= |s| && r == s[..|r|]
    ensures r == [] || !IsWhitespace(r[|r| - 1])
    ensures forall i :: |r| <= i < |s| ==> IsWhitespace(s[i])
  {
    if s != [] && IsWhitespace(s[|s| - 1]) then TrimEnd(s[..|s| - 1]) else s
  }

  /** Kotlin `trim()`. */
  function Trim(s: string): string {
    TrimEnd(TrimStart(s))
  }

  /** A string with no whitespace at either end. */
  predicate IsTrimmed(s: string) {
    s == [] || (!IsWhitespace(s[0]) && !IsWhitespace(s[|s| - 1]))
  }

  /** Trimming yields a trimmed string, is the identity on trimmed strings,
      and yields the empty string exactly on blank strings. */
  lemma TrimFacts(s: string)
    ensures IsTrimmed(Trim(s))
    ensures IsTrimmed(s) ==> Trim(s) == s
    ensures Trim(s) == [] <==> IsBlank(s)
  {
    var t := TrimStart(s);
    var r := TrimEnd(t);
    if r != [] {
      assert r[0] == t[0];
    }
  }

  /** `a < b` under Kotlin's `String.compareTo`: lexicographic on characters,
      a proper prefix ordered first. */
  predicate StrLt(a: string, b: string)
    decreases |a|
  {
    if a == [] then b != []
    else if b == [] then false
    else if a[0] != b[0] then a[0] < b[0]
    else StrLt(a[1..], b[1..])
  }

  /** `StrLt` is a strict total order on strings. */
  lemma {:induction false} StrLtIrreflexive(a: string)
    ensures !StrLt(a, a)
  {
    if a != [] {
      StrLtIrreflexive(a[1..]);
    }
  }

  lemma {:induction false} StrLtTransitive(a: string, b: string, c: string)
    requires StrLt(a, b) && StrLt(b, c)
    ensures StrLt(a, c)
    decreases |a|
  {
    if a != [] && b != [] && c != [] && a[0] == b[0] && b[0] == c[0] {
      StrLtTransitive(a[1..], b[1..], c[1..]);
    }
  }

  lemma {:induction false} StrLtTotal(a: string, b: string)
    ensures a == b || StrLt(a, b) || StrLt(b, a)
    decreases |a|
  {
    if a != [] && b != [] && a[0] == b[0] {
      StrLtTotal(a[1..], b[1..]);
      if a[1..] == b[1..] {
        assert a == [a[0]] + a[1..] && b == [b[0]] + b[1..];
      }
    }
  }

  lemma {:induction false} StrLtAsymmetric(a: string, b: string)
    requires StrLt(a, b)
    ensures !StrLt(b, a)
  {
    if StrLt(b, a) {
      StrLtTransitive(a, b, a);
      StrLtIrreflexive(a);
    }
  }

  /** Kotlin `split(sep)` with a single separator character: every occurrence
      of `sep` cuts, empty pieces included, so the result is never empty. */
  function Split(s: string, sep: char): (r: seq<string>)
    ensures |r| >= 1
    ensures forall i :: 0 <= i < |r| ==> sep !in r[i]
  {
    SplitFrom(s, sep, [])
  }

  /** `Split` with the characters of the current piece collected in `cur`. */
  function SplitFrom(s: string, sep: char, cur: string): (r: seq<string>)
    requires sep !in cur
    ensures |r| >= 1
    ensures forall i :: 0 <= i < |r| ==> sep !in r[i]
    decreases |s|
  {
    if s == [] then [cur]
    else if s[0] == sep then [cur] + SplitFrom(s[1..], sep, [])
    else SplitFrom(s[1..], sep, cur + [s[0]])
  }

  /** Kotlin `joinToString(sep)`. */
  function Join(parts: seq<string>, sep: string): string {
    if parts == [] then []
    else if |parts| == 1 then parts[0]
    else parts[0] + sep + Join(parts[1..], sep)
  }

  /** Splitting a separator-joined list recovers the pieces when no piece
      contains the separator (the separator string starts with `sep`). */
  lemma {:induction false} SplitJoin(parts: seq<string>, sep: char, tail: string)
    requires |parts| >= 1
    requires forall i :: 0 <= i < |parts| ==> sep !in parts[i]
    requires sep !in tail
    ensures Split(Join(parts, [sep] + tail), sep) ==
            [parts[0]] + seq(|parts| - 1, i requires 0 <= i < |parts| - 1 => tail + parts[i + 1])
  {
    SplitJoinFrom(parts, sep, tail, []);
    assert [] + parts[0] == parts[0];
  }

  lemma {:induction false} SplitJoinFrom(parts: seq<string>, sep: char, tail: string, cur: string)
    requires |parts| >= 1
    requires forall i :: 0 <= i < |parts| ==> sep !in parts[i]
    requires sep !in tail && sep !in cur
    ensures SplitFrom(Join(parts, [sep] + tail), sep, cur) ==
            [cur + parts[0]] + seq(|parts| - 1, i requires 0 <= i < |parts| - 1 => tail + parts[i + 1])
    decreases |parts|
  {
    if |parts| == 1 {
      SplitPiece(parts[0], [], sep, cur);
      assert parts[0] + [] == parts[0];
    } else {
      var rest := Join(parts[1..], [sep] + tail);
      assert Join(parts, [sep] + tail) == parts[0] + ([sep] + (tail + rest));
      SplitPiece(parts[0], [sep] + (tail + rest), sep, cur);
      assert ([sep] + (tail + rest))[1..] == tail + rest;
      assert SplitFrom([sep] + (tail + rest), sep, cur + parts[0]) ==
             [cur + parts[0]] + SplitFrom(tail + rest, sep, []);
      SplitPiece(tail, rest, sep, []);
      assert [] + tail == tail;
      // The piece after the separator starts with `tail`, then the rest joins on.
      SplitJoinFrom(parts[1..], sep, tail, tail);
      var later := seq(|parts| - 2, i requires 0 <= i < |parts| - 2 => tail + parts[i + 2]);
      assert SplitFrom(rest, sep, tail) == [tail + parts[1]] + later;
      assert [tail + parts[1]] + later ==
             seq(|parts| - 1, i requires 0 <= i < |parts| - 1 => tail + parts[i + 1]);
    }
  }

  /** Consuming a piece free of `sep` only extends the current piece. */
  lemma {:induction false} SplitPiece(piece: string, rest: string, sep: char, cur: string)
    requires sep !in piece && sep !in cur
    ensures SplitFrom(piece + rest, sep, cur) == SplitFrom(rest, sep, cur + piece)
    decreases |piece|
  {
    if piece != [] {
      assert (piece + rest)[0] == piece[0];
      assert (piece + rest)[1..] == piece[1..] + rest;
      SplitPiece(piece[1..], rest, sep, cur + [piece[0]]);
      assert cur + [piece[0]] + piece[1..] == cur + piece;
    } else {
      assert piece + rest == rest && cur + piece == cur;
    }
  }
}
