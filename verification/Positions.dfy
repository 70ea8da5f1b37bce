/** UTF-16 positions and UTF-8 offsets of the language server. */
module Positions {
  import opened Prelude

  function Utf8(c: char): nat { if c as int < 0x80 then 1
    else if c as int < 0x800 then 2 else if c as int < 0x1_0000 then 3 else 4 }

  function Utf16(c: char): nat { if c as int < 0x1_0000 then 1 else 2 }

  /** Bytes of the UTF-8 encoding. */
  function Bytes(s: string): nat { if s == [] then 0 else Utf8(s[0]) + Bytes(s[1..]) }

  /** Code units of the UTF-16 encoding. */
  function Units(s: string): nat { if s == [] then 0 else Utf16(s[0]) + Units(s[1..]) }

  datatype Position = Position(line: nat, character: nat)

  function Newlines(s: string): nat { if s == [] then 0 else Newlines(s[1..]) + if s[0] == '\n' then 1 else 0 }

  /** The part of `s` after its last newline. */
  function LastLine(s: string): string {
    if '\n' !in s then s else LastLine(s[1..])
  }

  /** The position of the character boundary after the first `i` characters. */
  function OffsetToPosition(source: string, i: nat): Position
    requires i <= |source|
  {
    Position(Newlines(source[..i]), Units(LastLine(source[..i])))
  }

  /** The rest of the source after `line` newlines. */
  function SkipLines(s: string, line: nat): (r: Option<string>)
    ensures r.Some? ==> |r.value| <= |s|
    decreases |s|
  {
    if line == 0 then Some(s) else if s == [] then None else SkipLines(s[1..], if s[0] == '\n' then line - 1 else line)
  }

  /**
   Bytes from the start of a line to column `target`, `units` code units having been passed; a column inside a
   character is its start.
   */
  function Column(s: string, units: nat, target: nat): nat {
    if s == [] || s[0] == '\n' then 0
    else
      var next := units + Utf16(s[0]);
      if next > target then 0 else if next == target then Utf8(s[0]) else Utf8(s[0]) + Column(s[1..], next, target)
  }

  /** The byte offset of a position; a line past the end is the end. */
  function PositionToOffset(source: string, p: Position): nat {
    match SkipLines(source, p.line)
    case None => Bytes(source)
    case Some(rest) => Bytes(source[..|source| - |rest|]) + Column(rest, 0, p.character)
  }

  method FindOffset(source: string, p: Position) returns (offset: nat)
    ensures offset == PositionToOffset(source, p)
  {
    var start: nat, bytes: nat, line: nat := 0, 0, 0;
    while line < p.line
      invariant start <= |source| && bytes == Bytes(source[..start]) && line <= p.line
      invariant SkipLines(source, p.line) == SkipLines(source[start..], p.line - line)
      decreases p.line - line
    {
      var found;
      start, bytes, found := PastNewline(source, start, bytes, p.line - line);
      if !found { return bytes; }
      line := line + 1;
    }
    SkipNothing(source[start..]);
    offset := bytes;
    var units: nat, i: nat := 0, start;
    assert source[..|source| - |source[start..]|] == source[..start];
    while i < |source| && source[i] != '\n'
      invariant start <= i <= |source|
      invariant offset + Column(source[i..], units, p.character) == bytes + Column(source[start..], 0, p.character)
    {
      var character := source[i];
      assert source[i..][1..] == source[i + 1..] && source[i..][0] == character;
      var width := Utf16(character);
      if units + width > p.character { return; }
      units := units + width;
      offset := offset + Utf8(character);
      if units == p.character { return; }
      i := i + 1;
    }
  }

  lemma SkipNothing(s: string)
    ensures SkipLines(s, 0) == Some(s)
  {}

  /** The start of the next line, if there is one. */
  method PastNewline(source: string, start: nat, bytes: nat, lines: nat)
    returns (next: nat, nextBytes: nat, found: bool)
    requires start <= |source| && bytes == Bytes(source[..start]) && lines > 0
    ensures next <= |source| && nextBytes == Bytes(source[..next])
    ensures found ==> SkipLines(source[start..], lines) == SkipLines(source[next..], lines - 1)
    ensures !found ==> next == |source| && source[..next] == source && SkipLines(source[start..], lines) == None
  {
    next, nextBytes := start, bytes;
    while next < |source|
      invariant start <= next <= |source| && nextBytes == Bytes(source[..next])
      invariant SkipLines(source[start..], lines) == SkipLines(source[next..], lines)
    {
      var character := source[next];
      assert source[next..][1..] == source[next + 1..] && source[next..][0] == character;
      assert source[..next + 1] == source[..next] + [character];
      BytesAppend(source[..next], [character]);
      assert [character][1..] == [];
      next, nextBytes := next + 1, nextBytes + Utf8(character);
      if character == '\n' { return next, nextBytes, true; }
    }
    assert source[|source|..] == [] && source[..|source|] == source;
    found := false;
  }

  lemma {:induction false} BytesAppend(a: string, b: string)
    ensures Bytes(a + b) == Bytes(a) + Bytes(b)
  {
    if a == [] {
      assert a + b == b;
    } else {
      assert (a + b)[1..] == a[1..] + b;
      BytesAppend(a[1..], b);
    }
  }

  // ----- the round trip -----

  /** Splitting before the last line: a prefix that is empty or ends in a newline, then a line without one. */
  lemma {:induction false} BeforeLastLine(s: string) returns (before: string)
    ensures s == before + LastLine(s) && '\n' !in LastLine(s) && Newlines(before) == Newlines(s)
    ensures before == [] || before[|before| - 1] == '\n'
  {
    if '\n' !in s {
      before := [];
      NoNewlines(s);
    } else {
      var rest := BeforeLastLine(s[1..]);
      NewlineCounts(s[1..]);
      before := [s[0]] + rest;
      assert s == [s[0]] + s[1..] && before[1..] == rest && before + LastLine(s) == [s[0]] + (rest + LastLine(s));
      assert rest != [] ==> before[|before| - 1] == rest[|rest| - 1];
    }
  }

  lemma {:induction false} NoNewlines(s: string)
    ensures '\n' !in s ==> Newlines(s) == 0
  {
    if s != [] { NoNewlines(s[1..]); }
  }

  lemma {:induction false} NewlineCounts(s: string)
    ensures '\n' in s ==> Newlines(s) > 0
  {
    if s != [] { NewlineCounts(s[1..]); }
  }

  /** Skipping as many lines as `before` has newlines skips `before`, if it ends in one. */
  lemma {:induction false} SkipBefore(before: string, rest: string)
    requires before == [] || before[|before| - 1] == '\n'
    ensures SkipLines(before + rest, Newlines(before)) == Some(rest)
    decreases |before|
  {
    if before == [] {
      assert before + rest == rest;
    } else {
      assert (before + rest)[1..] == before[1..] + rest;
      assert '\n' in before;
      NewlineCounts(before);
      SkipBefore(before[1..], rest);
    }
  }

  /** The column of the end of a line's prefix is the prefix. */
  lemma {:induction false} ColumnOfPrefix(m: string, rest: string, units: nat)
    requires '\n' !in m
    ensures Column(m + rest, units, units + Units(m)) == Bytes(m)
    decreases |m|
  {
    if m == [] {
      assert m + rest == rest;
    } else {
      assert (m + rest)[1..] == m[1..] + rest;
      ColumnOfPrefix(m[1..], rest, units + Utf16(m[0]));
      if m[1..] != [] { assert Units(m[1..]) > 0; }
    }
  }

  /** From any character boundary to its position and back is the identity. */
  lemma OffsetRoundTrip(source: string, i: nat)
    requires i <= |source|
    ensures PositionToOffset(source, OffsetToPosition(source, i)) == Bytes(source[..i])
  {
    var s, rest := source[..i], source[i..];
    var before := BeforeLastLine(s);
    var m := LastLine(s);
    assert source == before + (m + rest);
    SkipBefore(before, m + rest);
    ColumnOfPrefix(m, rest, 0);
    BytesAppend(before, m);
    assert source[..|source| - |m + rest|] == before;
  }

  /** Boundaries keep their order, so positions identify them. */
  lemma PositionsDiffer(source: string, i: nat, j: nat)
    requires i <= |source| && j <= |source| && OffsetToPosition(source, i) == OffsetToPosition(source, j)
    ensures i == j
  {
    OffsetRoundTrip(source, i);
    OffsetRoundTrip(source, j);
    BytesGrow(source, i, j);
    BytesGrow(source, j, i);
  }

  lemma BytesGrow(source: string, i: nat, j: nat)
    requires i <= |source| && j <= |source|
    ensures i < j ==> Bytes(source[..i]) < Bytes(source[..j])
  {
    if i < j {
      assert source[..j] == source[..i] + source[i..j];
      BytesAppend(source[..i], source[i..j]);
    }
  }

  // ----- any position -----

  lemma {:induction false} SkipLinesIs(s: string, line: nat)
    ensures match SkipLines(s, line)
      case None => Newlines(s) < line
      case Some(rest) =>
        var k := |s| - |rest|;
        rest == s[k..] && Newlines(s[..k]) == line && LastLine(s[..k]) == []
    decreases |s|
  {
    if line == 0 {
      assert s[..0] == [];
    } else if s != [] {
      var next := if s[0] == '\n' then line - 1 else line;
      SkipLinesIs(s[1..], next);
      match SkipLines(s[1..], next)
      case None =>
      case Some(rest) =>
        var k := |s| - |rest|;
        assert s[..k][1..] == s[1..][..k - 1];
        if '\n' !in s[..k] { NoNewlines(s[..k]); }
    }
  }

  /** Where a column falls on a line: the last boundary at or before it. */
  lemma {:induction false} ColumnIs(s: string, units: nat, target: nat) returns (j: nat)
    requires units <= target
    ensures j <= |s| && Column(s, units, target) == Bytes(s[..j]) && '\n' !in s[..j]
    ensures units + Units(s[..j]) <= target
    ensures j == |s| || s[j] == '\n' || units + Units(s[..j]) + Utf16(s[j]) > target
    decreases |s|
  {
    j := 0;
    if s != [] && s[0] != '\n' && units + Utf16(s[0]) <= target {
      if units + Utf16(s[0]) < target { j := ColumnIs(s[1..], units + Utf16(s[0]), target); }
      assert s[..j + 1][1..] == s[1..][..j];
      j := j + 1;
    }
  }

  lemma {:induction false} LastLineAppend(a: string, b: string)
    requires '\n' !in b
    ensures LastLine(a + b) == LastLine(a) + b && Newlines(a + b) == Newlines(a)
  {
    NoNewlines(b);
    if a == [] {
      assert a + b == b;
    } else {
      assert (a + b)[1..] == a[1..] + b;
      LastLineAppend(a[1..], b);
      if '\n' !in a && '\n' in a + b { assert false; }
    }
  }

  /**
   Every position has an offset: past the last line the end of the source, and on a line the last character boundary at
   or before the column.
   */
  lemma OffsetIsNearest(source: string, p: Position) returns (i: nat)
    ensures i <= |source| && PositionToOffset(source, p) == Bytes(source[..i])
    ensures p.line > Newlines(source) ==> i == |source|
    ensures p.line <= Newlines(source) ==>
      Newlines(source[..i]) == p.line && Units(LastLine(source[..i])) <= p.character
      && (i == |source| || source[i] == '\n' || Units(LastLine(source[..i])) + Utf16(source[i]) > p.character)
  {
    SkipLinesIs(source, p.line);
    match SkipLines(source, p.line)
    case None =>
      i := |source|;
      assert source[..i] == source;
    case Some(rest) =>
      var j := ColumnIs(rest, 0, p.character);
      i := |source| - |rest| + j;
      NearestIs(source, |source| - |rest|, j);
  }

  lemma NearestIs(source: string, k: nat, j: nat)
    requires k + j <= |source| && LastLine(source[..k]) == [] && '\n' !in source[k..][..j]
    ensures Newlines(source[..k]) <= Newlines(source) && Newlines(source[..k + j]) == Newlines(source[..k])
    ensures LastLine(source[..k + j]) == source[k..][..j]
    ensures Bytes(source[..k + j]) == Bytes(source[..k]) + Bytes(source[k..][..j])
  {
    hide Newlines, LastLine, Bytes;
    var before, rest := source[..k], source[k..];
    NewlinesAppend(before, rest);
    assert source == before + rest && source[..k + j] == before + rest[..j] && [] + rest[..j] == rest[..j];
    BytesAppend(before, rest[..j]);
    LastLineAppend(before, rest[..j]);
  }

  lemma {:induction false} NewlinesAppend(a: string, b: string)
    ensures Newlines(a + b) == Newlines(a) + Newlines(b)
  {
    if a == [] {
      assert a + b == b;
    } else {
      assert (a + b)[1..] == a[1..] + b;
      NewlinesAppend(a[1..], b);
    }
  }
}
