/** Renaming a symbol throughout a document, by way of the UTF-16 ranges the language server sends. */
module DocumentRename {
  import opened Prelude
  import opened Text
  import opened Literals
  import opened Symbols
  import opened CompactText
  import opened Positions
  import opened Rename

  // ----- rows -----

  /** The text between newlines: one row more than there are newlines. */
  function Split(s: string): (rows: seq<string>)
    ensures rows != []
  {
    if s == [] then [[]]
    else
      var rest := Split(s[1..]);
      if s[0] == '\n' then [[]] + rest else [[s[0]] + rest[0]] + rest[1..]
  }

  function Join(rows: seq<string>): string
    requires rows != []
  {
    rows[0] + if |rows| == 1 then [] else "\n" + Join(rows[1..])
  }

  predicate AreRows(rows: seq<string>) { rows != [] && forall i :: 0 <= i < |rows| ==> '\n' !in rows[i] }

  lemma {:induction false} JoinSplit(s: string)
    ensures Join(Split(s)) == s && AreRows(Split(s))
  {
    if s != [] {
      JoinSplit(s[1..]);
      var rest := Split(s[1..]);
      if s[0] == '\n' {
        assert ([[]] + rest)[1..] == rest;
      } else {
        assert ([[s[0]] + rest[0]] + rest[1..])[1..] == rest[1..];
      }
      assert s == [s[0]] + s[1..];
    }
  }

  lemma {:induction false} SplitRow(row: string, rest: string)
    requires '\n' !in row
    ensures Split(row + "\n" + rest) == [row] + Split(rest) && Split(row) == [row]
    decreases |row|
  {
    var s := row + "\n" + rest;
    if row == [] {
      assert s[1..] == rest && s[0] == '\n';
    } else {
      assert s[1..] == row[1..] + "\n" + rest && s[0] == row[0];
      SplitRow(row[1..], rest);
      assert [row[0]] + row[1..] == row;
      assert ([row[1..]] + Split(rest))[1..] == Split(rest);
    }
  }

  lemma {:induction false} SplitJoin(rows: seq<string>)
    requires AreRows(rows)
    ensures Split(Join(rows)) == rows
  {
    if |rows| == 1 {
      SplitRow(rows[0], []);
      assert rows[0] + [] == rows[0];
    } else {
      SplitJoin(rows[1..]);
      SplitRow(rows[0], Join(rows[1..]));
      assert rows == [rows[0]] + rows[1..] && Join(rows) == rows[0] + "\n" + Join(rows[1..]);
    }
  }

  predicate EndsLine(s: string) { s == [] || s[|s| - 1] == '\n' }

  /** The pieces of joined rows are the rows, but for an empty last one. */
  lemma {:induction false} PiecesOfJoin(rows: seq<string>)
    requires AreRows(rows)
    ensures Pieces([], Join(rows)) == if rows[|rows| - 1] == [] then rows[..|rows| - 1] else rows
    ensures rows[|rows| - 1] == [] <==> EndsLine(Join(rows))
  {
    hide Pieces;
    if |rows| == 1 {
      PiecesOfLast([], rows[0]);
      assert [] + rows[0] == rows[0] && Join(rows) == rows[0];
    } else {
      var rest := rows[1..];
      PiecesOfJoin(rest);
      PiecesOfLine([], rows[0], Join(rest));
      assert [] + rows[0] == rows[0] && Join(rows) == rows[0] + "\n" + Join(rest);
      assert rows[..|rows| - 1] == [rows[0]] + rest[..|rest| - 1] && rows == [rows[0]] + rest;
    }
  }

  /** The document's lines are its rows. */
  lemma DocumentIsRows(source: string)
    ensures Document(source) == ParseLines(Stripped(Split(source)))
  {
    hide ParseLine, Pieces;
    var rows := Split(source);
    JoinSplit(source);
    PiecesOfJoin(rows);
    assert StripReturn([]) == [];
    assert Stripped(Pieces([], source)) + (if EndsLine(source) then [[]] else []) == Stripped(rows);
  }

  // ----- the edits of a document -----

  function ReturnOf(row: string): string { if row != [] && row[|row| - 1] == '\r' then "\r" else [] }

  lemma RowSplits(row: string)
    ensures row == StripReturn(row) + ReturnOf(row)
  {}

  /** A label line that is not where the symbol is declared; of duplicate labels only the declaration is renamed. */
  predicate LabelElsewhere(table: Table, former: string, i: nat, line: string) {
    IsLabelLine(CodeParts(line)) && former in table && table[former].line != i
  }

  /** The occurrences in row `i`, which starts at `position`. */
  function RowEdits(table: Table, former: string, i: nat, row: string, position: nat): seq<Edit> {
    var line := StripReturn(row);
    if LabelElsewhere(table, former, i, line) then [] else LineEdits(line, former, position)
  }

  /** The occurrences in these rows, the first of which is row `i` and starts at `position`. */
  function EditsFrom(table: Table, former: string, rows: seq<string>, i: nat, position: nat): seq<Edit>
    decreases |rows|
  {
    if rows == [] then []
    else
      RowEdits(table, former, i, rows[0], position)
      + EditsFrom(table, former, rows[1..], i + 1, position + |rows[0]| + 1)
  }

  function RenameRow(table: Table, former: string, latter: string, i: nat, row: string): string {
    var line := StripReturn(row);
    (if LabelElsewhere(table, former, i, line) then line else RenameLine(line, former, latter)) + ReturnOf(row)
  }

  function RenameRows(table: Table, former: string, latter: string, rows: seq<string>, i: nat): (r: seq<string>)
    ensures |r| == |rows|
    decreases |rows|
  {
    if rows == [] then []
      else [RenameRow(table, former, latter, i, rows[0])] + RenameRows(table, former, latter, rows[1..], i + 1)
  }

  lemma LineEditsWithin(line: string, former: string, position: nat)
    ensures Within(LineEdits(line, former, position), position, position + |line|)
  {
    var ps := CodeParts(line);
    EditsInOrder(ps, IsLabelLine(ps), true, former, position);
    PartsFlatten(Outside, [], CodePart(line));
    assert [] + CodePart(line) == CodePart(line);
  }

  lemma RowEditsWithin(table: Table, former: string, i: nat, row: string, position: nat)
    ensures Within(RowEdits(table, former, i, row, position), position, position + |row|)
  {
    hide LineEdits, IsLabelLine;
    LineEditsWithin(StripReturn(row), former, position);
  }

  lemma {:induction false} EditsFromWithin(table: Table, former: string, rows: seq<string>, i: nat, position: nat)
    requires rows != []
    ensures Within(EditsFrom(table, former, rows, i, position), position, position + |Join(rows)|)
    decreases |rows|
  {
    hide RowEdits, Within, Join;
    var row, next, end := rows[0], position + |rows[0]| + 1, position + |Join(rows)|;
    RowEditsWithin(table, former, i, row, position);
    var here, later := RowEdits(table, former, i, row, position), EditsFrom(table, former, rows[1..], i + 1, next);
    JoinLength(rows);
    if |rows| > 1 {
      EditsFromWithin(table, former, rows[1..], i + 1, next);
      WithinFrom(later, position + |row|, next, end);
    } else {
      assert later == [];
      NothingWithin(position + |row|, end);
    }
    WithinBoth(here, later, position, position + |row|, end);
  }

  lemma JoinLength(rows: seq<string>)
    requires rows != []
    ensures |Join(rows)| == |rows[0]| + if |rows| == 1 then 0 else 1 + |Join(rows[1..])|
  {}

  /** What the edits of one row, followed by those of later rows, make of the text. */
  lemma RowEditsApply(text: string, position: nat, table: Table, former: string, latter: string, i: nat, row: string,
                      after: string,
                      later: seq<Edit>)
    requires position <= |text| && text[position..] == row + after
    requires position + |row| <= |text| && Within(later, position + |row|, |text|)
    ensures ApplyEdits(text, RowEdits(table, former, i, row, position) + later, position, latter)
         == RenameRow(table, former, latter, i, row) + ApplyEdits(text, later, position + |row|, latter)
  {
    RowSplits(row);
    hide ApplyEdits, LineEdits, Within, RenameLine, LabelElsewhere, StripReturn, ReturnOf;
    var line, end, next := StripReturn(row), position + |StripReturn(row)|, position + |row|;
    assert row + after == line + (ReturnOf(row) + after);
    WithinFrom(later, end, next, |text|);
    WithinFrom(later, position, next, |text|);
    CopyBefore(text, later, end, next, latter);
    assert text[end..next] == ReturnOf(row) by {
      assert text[end..] == text[position..][|line|..] == ReturnOf(row) + after;
      CommentSpan(text, end, ReturnOf(row), after);
    }
    var tail := ApplyEdits(text, later, next, latter);
    if LabelElsewhere(table, former, i, line) {
      CopyBefore(text, later, position, next, latter);
      assert text[position..next] == row by { CommentSpan(text, position, row, after); }
      assert [] + later == later;
    } else {
      LineEditsApply(text, position, line, ReturnOf(row) + after, former, latter, later);
      Regroup(RenameLine(line, former, latter), ReturnOf(row), tail);
    }
  }

  /** The edits of a document, applied together, rename row by row and leave every line ending as it was. */
  lemma {:induction false} EditsFromApply(text: string, position: nat, table: Table, former: string, latter: string,
                          rows: seq<string>, i: nat)
    requires rows != [] && position <= |text| && text[position..] == Join(rows)
    ensures ApplyEdits(text, EditsFrom(table, former, rows, i, position), position, latter)
         == Join(RenameRows(table, former, latter, rows, i))
    decreases |rows|
  {
    hide ApplyEdits, RowEdits, RenameRow, Within;
    var row, next := rows[0], position + |rows[0]| + 1;
    if |rows| == 1 {
      assert Join(rows) == row + [] && EditsFrom(table, former, rows[1..], i + 1, next) == [];
      RowEditsApply(text, position, table, former, latter, i, row, [], []) by {
        NothingWithin(position + |row|, |text|);
      }
      ApplyNone(text, position + |row|, latter);
      assert text[position + |row|..] == [];
      LoneRow(table, former, latter, rows, i);
    } else {
      var rest := rows[1..];
      var later := EditsFrom(table, former, rest, i + 1, next);
      assert text[position..] == row + ("\n" + Join(rest));
      assert text[next..] == Join(rest) by { assert text[next..] == text[position..][|row| + 1..]; }
      EditsFromWithin(table, former, rest, i + 1, next);
      WithinFrom(later, position + |row|, next, |text|);
      RowEditsApply(text, position, table, former, latter, i, row, "\n" + Join(rest), later);
      CopyBefore(text, later, position + |row|, next, latter);
      assert text[position + |row|..next] == "\n" by { assert text[position + |row|] == text[position..][|row|]; }
      EditsFromApply(text, next, table, former, latter, rest, i + 1);
      RowsJoin(table, former, latter, rows, i);
    }
  }

  lemma NothingWithin(low: nat, high: nat)
    ensures Within([], low, high)
  {}

  lemma LoneRow(table: Table, former: string, latter: string, rows: seq<string>, i: nat)
    requires |rows| == 1
    ensures Join(RenameRows(table, former, latter, rows, i)) == RenameRow(table, former, latter, i, rows[0]) + []
  {
    assert RenameRows(table, former, latter, rows[1..], i + 1) == [];
  }

  lemma RowsJoin(table: Table, former: string, latter: string, rows: seq<string>, i: nat)
    requires |rows| > 1
    ensures Join(RenameRows(table, former, latter, rows, i))
         == RenameRow(table, former, latter, i, rows[0]) +
           ("\n" + Join(RenameRows(table, former, latter, rows[1..], i + 1)))
  {
    var r := RenameRows(table, former, latter, rows, i);
    assert r[1..] == RenameRows(table, former, latter, rows[1..], i + 1);
  }

  // ----- the request -----

  /** A span of the document as the protocol writes it. */
  datatype Range = Range(start: Position, end: Position)

  datatype RenameError = NotAnIdentifier | AlreadyDeclared

  function TableOf(source: string): Table { Collect(Kinds(Document(source))) }

  function DocumentEdits(source: string, former: string): seq<Edit> {
    EditsFrom(TableOf(source), former, Split(source), 0, 0)
  }

  function RangeOf(source: string, e: Edit): Range
    requires e.start <= |source| && e.end <= |source|
  {
    Range(OffsetToPosition(source, e.start), OffsetToPosition(source, e.end))
  }

  function RangesOf(source: string, edits: seq<Edit>): seq<Range>
    requires Within(edits, 0, |source|)
  {
    seq(|edits|, k requires 0 <= k < |edits| => RangeOf(source, edits[k]))
  }

  lemma DocumentEditsWithin(source: string, former: string)
    ensures Within(DocumentEdits(source, former), 0, |source|)
  {
    hide EditsFrom, TableOf, Join, Split, Within;
    JoinSplit(source);
    EditsFromWithin(TableOf(source), former, Split(source), 0, 0);
  }

  /** The ranges to replace by the new name: none for a name that is not declared. */
  function RenameRanges(source: string, former: string, latter: string): Result<seq<Range>, RenameError> {
    if former !in TableOf(source) then Ok([])
    else if !IsIdentifier(latter) then Err(NotAnIdentifier)
    else if latter != former && latter in TableOf(source) then Err(AlreadyDeclared)
    else
      DocumentEditsWithin(source, former);
      Ok(RangesOf(source, DocumentEdits(source, former)))
  }

  // ----- the client -----

  /** How many characters the first `bytes` bytes of the text encode. */
  function Boundary(s: string, bytes: nat): nat {
    if s == [] || bytes < Utf8(s[0]) then 0 else 1 + Boundary(s[1..], bytes - Utf8(s[0]))
  }

  lemma {:induction false} BoundaryOfBytes(s: string, i: nat)
    requires i <= |s|
    ensures Boundary(s, Bytes(s[..i])) == i
  {
    if i > 0 {
      assert s[..i][1..] == s[1..][..i - 1];
      BoundaryOfBytes(s[1..], i - 1);
    } else if s != [] {
      assert s[..0] == [];
    }
  }

  function SpanOf(source: string, r: Range): Edit {
    Edit(Boundary(source, PositionToOffset(source, r.start)), Boundary(source, PositionToOffset(source, r.end)))
  }

  function SpansOf(source: string, ranges: seq<Range>): seq<Edit> {
    seq(|ranges|, k requires 0 <= k < |ranges| => SpanOf(source, ranges[k]))
  }

  /** Ranges lead back to the spans they were made of. */
  lemma SpansSurvive(source: string, edits: seq<Edit>)
    requires Within(edits, 0, |source|)
    ensures SpansOf(source, RangesOf(source, edits)) == edits
  {
    hide OffsetToPosition, PositionToOffset;
    forall k | 0 <= k < |edits| ensures SpanOf(source, RangeOf(source, edits[k])) == edits[k] {
      var e := edits[k];
      OffsetRoundTrip(source, e.start);
      OffsetRoundTrip(source, e.end);
      BoundaryOfBytes(source, e.start);
      BoundaryOfBytes(source, e.end);
    }
  }

  /** The document after the client has replaced every range. */
  function RenameDocument(source: string, former: string, latter: string): Result<string, RenameError> {
    match RenameRanges(source, former, latter)
    case Err(error) => Err(error)
    case Ok(ranges) => Ok(ApplyEdits(source, SpansOf(source, ranges), 0, latter))
  }

  function RenamedRows(source: string, former: string, latter: string): seq<string> {
    RenameRows(TableOf(source), former, latter, Split(source), 0)
  }

  /** Renaming a declared symbol through UTF-16 ranges renames its occurrences, row by row, and nothing else. */
  lemma RenameRenamesRows(source: string, former: string, latter: string)
    requires former in TableOf(source) && IsIdentifier(latter) && (latter == former || latter !in TableOf(source))
    ensures RenamedRows(source, former, latter) != []
    ensures RenameDocument(source, former, latter) == Ok(Join(RenamedRows(source, former, latter)))
  {
    hide ApplyEdits, EditsFrom, RenameRows, TableOf, SpansOf, RangesOf;
    DocumentEditsWithin(source, former);
    SpansSurvive(source, DocumentEdits(source, former));
    JoinSplit(source);
    assert source[0..] == source;
    EditsFromApply(source, 0, TableOf(source), former, latter, Split(source), 0);
  }

  // ----- the renamed document -----

  lemma {:induction false} RenamedRowAt(table: Table, former: string, latter: string, rows: seq<string>, i: nat, k: nat)
    requires k < |rows|
    ensures RenameRows(table, former, latter, rows, i)[k] == RenameRow(table, former, latter, i + k, rows[k])
    decreases |rows|
  {
    hide RenameRow;
    if k > 0 { RenamedRowAt(table, former, latter, rows[1..], i + 1, k - 1); }
  }

  /** Characters of a renamed line come from the line or from the new name. */
  lemma {:induction false} RenamedPartsHaveNo(ps: seq<Part>, lone: bool, first: bool, former: string, latter: string,
                          c: char)
    requires c !in Flatten(ps) && c !in latter && c != ':'
    ensures c !in Flatten(RenameParts(ps, lone, first, former, latter))
  {
    hide PartText;
    if ps != [] {
      FlattenHead(ps);
      var r := RenameParts(ps, lone, first, former, latter);
      FlattenHead(r);
      assert r[1..] == RenameParts(ps[1..], lone, StillFirst(ps[0], first), former, latter);
      RenamedPartsHaveNo(ps[1..], lone, StillFirst(ps[0], first), former, latter, c);
      assert c !in PartText(ps[0]) && c !in Flatten(ps[1..]);
      RenamedPartHasNo(ps[0], r[0], lone, first, former, latter, c);
    }
  }

  lemma RenamedPartHasNo(p: Part, r: Part, lone: bool, first: bool, former: string, latter: string, c: char)
    requires c !in PartText(p) && c !in latter && c != ':'
    requires r == if p.Gap? then p else Tok(RenameToken(lone, first, p.text, former, latter))
    ensures c !in PartText(r)
  {}

  predicate EndsIn(s: string, c: char) { s != [] && s[|s| - 1] == c }

  /** Renaming keeps how a line ends, but for a renamed name at the end. */
  lemma {:induction false} RenamedPartsEnd(ps: seq<Part>, lone: bool, first: bool, former: string, latter: string,
                          c: char)
    requires !EndsIn(Flatten(ps), c) && latter != [] && !EndsIn(latter, c) && c != ':'
    ensures !EndsIn(Flatten(RenameParts(ps, lone, first, former, latter)), c)
  {
    hide PartText;
    if ps != [] {
      FlattenHead(ps);
      var r := RenameParts(ps, lone, first, former, latter);
      FlattenHead(r);
      assert r[1..] == RenameParts(ps[1..], lone, StillFirst(ps[0], first), former, latter);
      if Flatten(ps[1..]) == [] {
        assert Flatten(ps) == PartText(ps[0]);
        RenamedPartEnds(ps[0], r[0], lone, first, former, latter, c);
      }
      RenamedPartsEnd(ps[1..], lone, StillFirst(ps[0], first), former, latter, c) by {
        EndOfTail(PartText(ps[0]), Flatten(ps[1..]), c);
      }
      RenamedStaysEmpty(ps[1..], lone, StillFirst(ps[0], first), former, latter);
      EndOfBoth(PartText(r[0]), Flatten(r[1..]), c);
    }
  }

  lemma EndOfTail(a: string, b: string, c: char)
    requires !EndsIn(a + b, c)
    ensures !EndsIn(b, c)
  {
    assert b != [] ==> (a + b)[|a + b| - 1] == b[|b| - 1];
  }

  lemma EndOfBoth(a: string, b: string, c: char)
    requires !EndsIn(b, c) && (b == [] ==> !EndsIn(a, c))
    ensures !EndsIn(a + b, c)
  {
    assert b != [] ==> (a + b)[|a + b| - 1] == b[|b| - 1];
    assert b == [] ==> a + b == a;
  }

  lemma RenamedPartEnds(p: Part, r: Part, lone: bool, first: bool, former: string, latter: string, c: char)
    requires !EndsIn(PartText(p), c) && latter != [] && !EndsIn(latter, c) && c != ':'
    requires r == if p.Gap? then p else Tok(RenameToken(lone, first, p.text, former, latter))
    ensures !EndsIn(PartText(r), c)
  {}

  /** Text that is left after a part is not renamed away. */
  lemma {:induction false} RenamedStaysEmpty(ps: seq<Part>, lone: bool, first: bool, former: string, latter: string)
    requires latter != []
    ensures Flatten(RenameParts(ps, lone, first, former, latter)) == [] ==> Flatten(ps) == []
  {
    if ps != [] {
      var r := RenameParts(ps, lone, first, former, latter);
      assert r[1..] == RenameParts(ps[1..], lone, StillFirst(ps[0], first), former, latter);
      RenamedStaysEmpty(ps[1..], lone, StillFirst(ps[0], first), former, latter);
    }
  }

  lemma IdentifierEnds(name: string)
    requires IsIdentifier(name)
    ensures name != [] && !EndsIn(name, '\r') && '\n' !in name
  {}

  /** A renamed line is one line, and ends in a carriage return only if it did. */
  lemma RenamedLineIsLine(line: string, former: string, latter: string)
    requires IsIdentifier(latter) && '\n' !in line
    ensures '\n' !in RenameLine(line, former, latter)
    ensures !EndsIn(line, '\r') ==> !EndsIn(RenameLine(line, former, latter), '\r')
  {
    hide RenameParts, Parts, IsIdentifier, CommentStart, IsLabelLine, EndsIn, CodePart, CommentPart;
    var ps := CodeParts(line);
    var comment := if CommentPart(line).Some? then CommentPart(line).value else [];
    CodeAndComment(line);
    PartsFlatten(Outside, [], CodePart(line));
    assert [] + CodePart(line) == CodePart(line) == Flatten(ps);
    IdentifierEnds(latter);
    var renamed := Flatten(RenameParts(ps, IsLabelLine(ps), true, former, latter));
    RenamedPartsHaveNo(ps, IsLabelLine(ps), true, former, latter, '\n');
    if !EndsIn(line, '\r') {
      EndOfTail(Flatten(ps), comment, '\r');
      if comment == [] {
        assert Flatten(ps) + comment == Flatten(ps);
        RenamedPartsEnd(ps, IsLabelLine(ps), true, former, latter, '\r');
      }
      EndOfBoth(renamed, comment, '\r');
    }
  }

  lemma StripAppended(line: string, row: string)
    requires !EndsIn(row, '\r') ==> !EndsIn(line, '\r')
    ensures StripReturn(line + ReturnOf(row)) == line && ReturnOf(line + ReturnOf(row)) == ReturnOf(row)
  {
    assert (line + "\r")[..|line|] == line;
    assert line + [] == line;
  }

  /** A renamed row is a row, whose line is the row's line renamed. */
  lemma RenamedRowIsRow(table: Table, former: string, latter: string, i: nat, row: string)
    requires IsIdentifier(latter) && '\n' !in row
    ensures var line, r := StripReturn(row), RenameRow(table, former, latter, i, row);
      && '\n' !in r && ReturnOf(r) == ReturnOf(row)
      && StripReturn(r) == if LabelElsewhere(table, former, i, line) then line else RenameLine(line, former, latter)
  {
    hide LabelElsewhere, RenameLine, IsIdentifier;
    var line := StripReturn(row);
    assert !EndsIn(row, '\r') ==> line == row;
    RenamedLineIsLine(line, former, latter);
    StripAppended(line, row);
    StripAppended(RenameLine(line, former, latter), row);
  }

  /** The program of a document, line by line. */
  lemma KindOfRow(source: string, k: nat)
    requires k < |Split(source)|
    ensures |Kinds(Document(source))| == |Split(source)|
    ensures Kinds(Document(source))[k] == ParseLine(StripReturn(Split(source)[k])).kind
  {
    hide ParseLine, Document, StripReturn;
    DocumentIsRows(source);
  }

  lemma RenamedRowsAreRows(source: string, former: string, latter: string)
    requires IsIdentifier(latter)
    ensures var rows := RenamedRows(source, former, latter); AreRows(rows) && Split(Join(rows)) == rows
  {
    hide RenameRows, RenameRow, TableOf, IsIdentifier, Join;
    var rows, table := Split(source), TableOf(source);
    JoinSplit(source);
    forall k | 0 <= k < |rows| ensures '\n' !in RenamedRows(source, former, latter)[k] {
      RenamedRowAt(table, former, latter, rows, 0, k);
      RenamedRowIsRow(table, former, latter, k, rows[k]);
    }
    SplitJoin(RenamedRows(source, former, latter));
  }

  /** A label of that name is declared on its own line only. */
  predicate OneLabel(source: string, name: string) {
    forall k :: 0 <= k < |Kinds(Document(source))| && Kinds(Document(source))[k] == Label(name) ==>
      name in TableOf(source) && TableOf(source)[name].line == k
  }

  function Renamed(source: string, former: string, latter: string): string
    requires RenamedRows(source, former, latter) != []
  {
    Join(RenamedRows(source, former, latter))
  }

  lemma LabelLineIsLabel(line: string)
    ensures IsLabelLine(CodeParts(line)) <==> ParseLine(line).kind.Label?
  {
    PartsFlatten(Outside, [], CodePart(line));
  }

  /** The kind of a renamed row. */
  lemma KindOfRenamedRow(source: string, former: string, latter: string, k: nat)
    requires former in TableOf(source) && IsIdentifier(former) && IsIdentifier(latter) && k < |Split(source)|
    requires RenamedRows(source, former, latter) != []
    requires Split(Renamed(source, former, latter)) == RenamedRows(source, former, latter)
    ensures var p, q := Kinds(Document(source)), Kinds(Document(Renamed(source, former, latter)));
      |p| == |q| == |Split(source)| &&
      q[k] == if p[k].Label? && TableOf(source)[former].line != k then p[k] else RenameKind(p[k], former, latter)
  {
    hide RenameRows, RenameRow, TableOf, IsIdentifier, Join, Document, ParseLine, StripReturn, ReturnOf, IsLabelLine,
        RenameLine, RenameKind;
    var rows, table := Split(source), TableOf(source);
    JoinSplit(source);
    KindOfRow(source, k);
    KindOfRow(Renamed(source, former, latter), k);
    RenamedRowAt(table, former, latter, rows, 0, k);
    RenamedRowIsRow(table, former, latter, k, rows[k]);
    LabelLineIsLabel(StripReturn(rows[k]));
    RenameChangesKind(StripReturn(rows[k]), former, latter);
  }

  lemma DeclaredIsIdentifier(source: string, name: string)
    requires name in TableOf(source)
    ensures IsIdentifier(name) && TableOf(source)[name].line < |Kinds(Document(source))|
  {
    hide Document, IsIdentifier;
    CollectEntries(Kinds(Document(source)), name);
  }

  /** The program of the renamed document is the program renamed, if the label is not declared again. */
  lemma RenamedDocumentReads(source: string, former: string, latter: string)
    requires former in TableOf(source) && IsIdentifier(latter) && OneLabel(source, former)
    ensures RenamedRows(source, former, latter) != []
    ensures Kinds(Document(Renamed(source, former, latter))) == RenameProgram(Kinds(Document(source)), former, latter)
  {
    hide TableOf, IsIdentifier, Document, RenamedRows, Renamed, Split, RenameOperands;
    DeclaredIsIdentifier(source, former);
    RenamedRowsAreRows(source, former, latter);
    assert RenamedRows(source, former, latter) != [] &&
        Split(Renamed(source, former, latter)) == RenamedRows(source, former, latter) by {
      RenamedSplits(source, former, latter);
    }
    var p, q := Kinds(Document(source)), Kinds(Document(Renamed(source, former, latter)));
    KindOfRow(source, 0) by { JoinSplit(source); SplitIsSome(source); }
    KindOfRenamedRow(source, former, latter, 0) by { SplitIsSome(source); }
    forall k | 0 <= k < |p|
      ensures q[k] == RenameKind(p[k], former, latter)
    {
      KindOfRenamedRow(source, former, latter, k);
    }
  }

  lemma SplitIsSome(source: string)
    ensures |Split(source)| > 0
  {}

  lemma RenamedSplits(source: string, former: string, latter: string)
    requires IsIdentifier(latter)
    ensures RenamedRows(source, former, latter) != []
    ensures Split(Renamed(source, former, latter)) == RenamedRows(source, former, latter)
  {
    RenamedRowsAreRows(source, former, latter);
  }

  lemma NotDeclared(p: seq<LineKind>, name: string)
    requires IsIdentifier(name) && name !in Collect(p)
    ensures forall i :: 0 <= i < |p| && Declared(p[i], i).Some? ==> Declared(p[i], i).value.0 != name
  {
    hide IsIdentifier, Declared;
    CollectEntries(p, name);
  }

  /** The symbol table of the renamed document: the symbol under its new name, every other where it was. */
  lemma RenamedDocumentTable(source: string, former: string, latter: string, name: string)
    requires former in TableOf(source) && IsIdentifier(latter) && latter !in TableOf(source) && OneLabel(source, former)
    requires name != former && name != latter
    ensures RenamedRows(source, former, latter) != []
    ensures var table, table' := TableOf(source), TableOf(Renamed(source, former, latter));
      && former !in table' && latter in table' && table'[latter] == RenameSymbol(table[former], former, latter)
      && (name in table <==> name in table') &&
          (name in table ==> table'[name] == RenameSymbol(table[name], former, latter))
  {
    DeclaredIsIdentifier(source, former);
    RenamedDocumentReads(source, former, latter);
    NotDeclared(Kinds(Document(source)), latter);
    hide Document, IsIdentifier, RenamedRows, Renamed, Collect, RenameProgram, RenameSymbol, OneLabel;
    RenamedTable(Kinds(Document(source)), former, latter, name);
  }

  /** Some line of the program declares the name. */
  ghost predicate Declares(source: string, name: string) {
    var p := Kinds(Document(source));
    IsIdentifier(name) && exists k :: 0 <= k < |p| && Declared(p[k], k).Some? && Declared(p[k], k).value.0 == name
  }

  lemma TableDeclares(source: string, name: string)
    ensures name in TableOf(source) <==> Declares(source, name)
  {
    hide IsIdentifier, Document, Declared;
    CollectEntries(Kinds(Document(source)), name);
  }

  /** A request is refused exactly for a name that is none, or one that some line declares already. */
  lemma RefusedExactly(source: string, former: string, latter: string)
    ensures var r := RenameDocument(source, former, latter);
      && (!Declares(source, former) ==> r == Ok(source))
      && (r == Err(NotAnIdentifier) <==> Declares(source, former) && !IsIdentifier(latter))
      && (r == Err(AlreadyDeclared) <==>
            Declares(source, former) && Declares(source, latter) && latter != former)
  {
    hide IsIdentifier, TableOf, Declares, DocumentEdits, SpansOf, RangesOf;
    TableDeclares(source, former);
    TableDeclares(source, latter);
    if Declares(source, latter) { DeclaredIsIdentifier(source, latter); }
    if !Declares(source, former) { NothingApplied(source, latter); }
  }

  lemma NothingApplied(source: string, latter: string)
    ensures ApplyEdits(source, SpansOf(source, []), 0, latter) == source
  {}

  // ----- there and back -----

  /** No token of the code is the name, or the name as a label. */
  predicate AbsentFrom(source: string, name: string) {
    forall k :: 0 <= k < |Split(source)| ==> Absent(CodeParts(StripReturn(Split(source)[k])), name)
  }

  lemma {:induction false} AbsentToks(ps: seq<Part>, name: string)
    requires Absent(ps, name)
    ensures forall t :: t in Toks(ps) ==> t != name && t != name + ":"
  {
    if ps != [] {
      assert forall i :: 0 <= i < |ps| - 1 ==> ps[1..][i] == ps[i + 1];
      AbsentToks(ps[1..], name);
    }
  }

  lemma AbsentKind(line: string, name: string)
    requires Absent(CodeParts(line), name)
    ensures forall i :: Declared(ParseLine(line).kind, i).Some? ==> Declared(ParseLine(line).kind, i).value.0 != name
  {
    hide Absent, Classify;
    AbsentToks(CodeParts(line), name);
    PartsFlatten(Outside, [], CodePart(line));
    ClassifyKeepsTokens(Tokenize(CodePart(line)));
    var k := ParseLine(line).kind;
    if k.Label? { assert k.name + ":" in TokensOf(k); }
    if k.Instruction? && k.operands != [] { assert k.operands[0] in TokensOf(k); }
  }

  /** An absent name is not declared. */
  lemma AbsentIsUndeclared(source: string, name: string)
    requires AbsentFrom(source, name)
    ensures name !in TableOf(source)
  {
    hide Document, ParseLine, StripReturn, Absent, CodeParts, IsIdentifier, Declared, Split;
    var p := Kinds(Document(source));
    if name in TableOf(source) {
      CollectEntries(p, name);
      var k := Collect(p)[name].line;
      KindOfRow(source, 0) by { SplitIsSome(source); }
      KindOfRow(source, k);
      AbsentKind(StripReturn(Split(source)[k]), name);
    }
  }

  /** Renaming a row and renaming back restores it. */
  lemma BackRow(table: Table, table': Table, former: string, latter: string, i: nat, row: string)
    requires IsIdentifier(former) && IsIdentifier(latter) && '\n' !in row && Absent(CodeParts(StripReturn(row)), latter)
    requires former in table && latter in table' && table'[latter].line == table[former].line
    ensures RenameRow(table', latter, former, i, RenameRow(table, former, latter, i, row)) == row
  {
    hide IsIdentifier, RenameLine, StripReturn, ReturnOf, Absent, CodeParts, IsLabelLine;
    var line := StripReturn(row);
    RowSplits(row);
    RenamedRowIsRow(table, former, latter, i, row);
    if !LabelElsewhere(table, former, i, line) {
      RenameAndBack(line, former, latter);
      StaysLabel(line, former, latter);
    }
  }

  lemma StaysLabel(line: string, former: string, latter: string)
    requires IsIdentifier(former) && IsIdentifier(latter)
    ensures IsLabelLine(CodeParts(RenameLine(line, former, latter))) == IsLabelLine(CodeParts(line))
  {
    hide IsIdentifier, RenameLine, ParseLine, RenameOperand, CodeParts, IsLabelLine;
    RenameChangesKind(line, former, latter);
    LabelLineIsLabel(line);
    LabelLineIsLabel(RenameLine(line, former, latter));
  }

  /** Renaming back restores every row. */
  lemma BackRows(source: string, former: string, latter: string)
    requires former in TableOf(source) && IsIdentifier(latter) && AbsentFrom(source, latter) && OneLabel(source, former)
    ensures RenamedRows(source, former, latter) != []
    ensures RenameDocument(Renamed(source, former, latter), latter, former) == Ok(source)
  {
    hide TableOf, IsIdentifier, RenameRows, RenameRow, Document, Join, Split, OneLabel, AbsentFrom, Absent,
        RenameDocument, StripReturn, CodeParts;
    DeclaredIsIdentifier(source, former);
    AbsentIsUndeclared(source, latter);
    RenamedRowsAreRows(source, former, latter);
    var out, rows := Renamed(source, former, latter), Split(source);
    RenamedLine(source, former, latter);
    RenameRenamesRows(out, latter, former);
    JoinSplit(source);
    forall k | 0 <= k < |rows| ensures RenamedRows(out, latter, former)[k] == rows[k] {
      RenamedRowAt(TableOf(source), former, latter, rows, 0, k);
      RenamedRowAt(TableOf(out), latter, former, RenamedRows(source, former, latter), 0, k);
      BackRow(TableOf(source), TableOf(out), former, latter, k, rows[k]) by { AbsentAt(source, latter, k); }
    }
    assert RenamedRows(out, latter, former) == rows;
  }

  lemma AbsentAt(source: string, name: string, k: nat)
    requires AbsentFrom(source, name) && k < |Split(source)|
    ensures Absent(CodeParts(StripReturn(Split(source)[k])), name) && '\n' !in Split(source)[k]
  {
    JoinSplit(source);
  }

  lemma RenamedLine(source: string, former: string, latter: string)
    requires former in TableOf(source) && IsIdentifier(latter) && latter !in TableOf(source) && OneLabel(source, former)
    requires RenamedRows(source, former, latter) != []
    ensures var table, table' := TableOf(source), TableOf(Renamed(source, former, latter));
      former !in table' && latter in table' && table'[latter].line == table[former].line
  {
    hide TableOf, IsIdentifier, RenamedRows, Renamed, OneLabel;
    var name := former + latter + "a";
    RenamedDocumentTable(source, former, latter, name) by { assert |name| > |former| && |name| > |latter|; }
  }

  /** A label that is declared again keeps the former name, so the way back is refused. */
  lemma BackIsRefused(source: string, former: string, latter: string)
    requires former in TableOf(source) && IsIdentifier(latter) && latter != former && !OneLabel(source, former)
    ensures RenamedRows(source, former, latter) != []
    ensures RenameDocument(Renamed(source, former, latter), latter, former) == Err(AlreadyDeclared)
  {
    DeclaredIsIdentifier(source, former);
    var p := Kinds(Document(source));
    var i := TableOf(source)[former].line;
    var k := AnotherLabel(source, former);
    assert Declared(p[i], i).Some? && Declared(p[i], i).value.0 == former by {
      hide IsIdentifier, Document;
      CollectEntries(p, former);
    }
    hide TableOf, IsIdentifier, RenamedRows, Renamed, Document, Split, RenameOperands, OneLabel, Declared,
        DocumentEdits;
    RenamedSplits(source, former, latter);
    SplitIsSome(source);
    KindOfRow(source, 0);
    KindOfRenamedRow(source, former, latter, k);
    KindOfRenamedRow(source, former, latter, i);
    var q := Kinds(Document(Renamed(source, former, latter)));
    assert q[k] == Label(former);
    assert q[i] == RenameKind(p[i], former, latter);
    RenamedDeclares(p[i], i, former, latter);
    DeclaresInTable(q, k, former) by {
      assert Declared(q[k], k).Some? && Declared(q[k], k).value.0 == former by { LabelDeclares(former, k); }
    }
    DeclaresInTable(q, i, latter);
    assert former in TableOf(Renamed(source, former, latter)) && latter in TableOf(Renamed(source, former, latter)) by {
      TableOfKinds(Renamed(source, former, latter));
    }
  }

  lemma TableOfKinds(source: string)
    ensures TableOf(source) == Collect(Kinds(Document(source)))
  {}

  lemma LabelDeclares(name: string, k: nat)
    ensures Declared(Label(name), k).Some? && Declared(Label(name), k).value.0 == name
  {}

  lemma AnotherLabel(source: string, name: string) returns (k: nat)
    requires name in TableOf(source) && !OneLabel(source, name)
    ensures k < |Kinds(Document(source))| && Kinds(Document(source))[k] == Label(name)
    ensures TableOf(source)[name].line != k
  {
    hide Document, Collect;
    k :| 0 <= k < |Kinds(Document(source))| && Kinds(Document(source))[k] == Label(name) &&
      TableOf(source)[name].line != k;
  }

  lemma DeclaresInTable(p: seq<LineKind>, i: nat, name: string)
    requires i < |p| && IsIdentifier(name) && Declared(p[i], i).Some? && Declared(p[i], i).value.0 == name
    ensures name in Collect(p)
  {
    hide IsIdentifier, Declared;
    CollectEntries(p, name);
  }

  /**
   Renaming a declared symbol to a name that is absent succeeds; renaming back restores the source exactly, line
   endings included, if and only if the symbol is not a label declared again further down.
   */
  lemma RenameThereAndBack(source: string, former: string, latter: string)
    requires former in TableOf(source) && IsIdentifier(latter) && AbsentFrom(source, latter)
    ensures RenamedRows(source, former, latter) != []
    ensures RenameDocument(source, former, latter) == Ok(Renamed(source, former, latter))
    ensures RenameDocument(Renamed(source, former, latter), latter, former) == Ok(source) <==> OneLabel(source, former)
  {
    hide TableOf, IsIdentifier, RenamedRows, Document, AbsentFrom, RenameDocument, OneLabel;
    AbsentIsUndeclared(source, latter);
    RenameRenamesRows(source, former, latter);
    if OneLabel(source, former) { BackRows(source, former, latter); } else { BackIsRefused(source, former, latter); }
  }
}
