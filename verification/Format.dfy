/** The formatter: a printer for parsed lines, and its round trips with the parser. */
module Format {
  import opened Prelude
  import opened Text
  import opened Words
  import opened Readable
  import opened CompactText

  datatype FormatOptions = FormatOptions(indentSize: nat, insertSpaces: bool, directivesAtColumnZero: bool)

  function Repeat(c: char, n: nat): string { if n == 0 then [] else [c] + Repeat(c, n - 1) }

  function Indent(o: FormatOptions): string { if o.insertSpaces then Repeat(' ', o.indentSize) else "\t" }

  function Spaced(code: string, operands: seq<string>): string {
    if operands == [] then code
    else Spaced(code, operands[..|operands| - 1]) + " " + operands[|operands| - 1]
  }

  function CodeText(o: FormatOptions, line: ParsedLine): string {
    match line.kind
    case Empty => if line.comment.Some? then [] else line.text
    case Label(name) => name + ":"
    case Instruction(m, operands) =>
      Spaced((if o.directivesAtColumnZero && (m == "alias" || m == "define") then [] else Indent(o)) + m, operands)
  }

  function FormatLine(o: FormatOptions, line: ParsedLine): string {
    var code := CodeText(o, line);
    match line.comment
    case None => TrimEnd(code)
    case Some(comment) => if Trim(code) == [] then comment else TrimEnd(code) + " " + comment
  }

  predicate HasReturnNewline(s: string) { exists i :: 0 <= i < |s| - 1 && s[i] == '\r' && s[i + 1] == '\n' }

  function Join(lines: seq<string>, eol: string): string {
    if lines == [] then [] else if |lines| == 1 then lines[0] else lines[0] + eol + Join(lines[1..], eol)
  }

  predicate EndsInNewline(s: string) { s != [] && s[|s| - 1] == '\n' }

  function FormatLines(o: FormatOptions, lines: seq<ParsedLine>): (r: seq<string>)
    ensures |r| == |lines|
  {
    seq(|lines|, i requires 0 <= i < |lines| => FormatLine(o, lines[i]))
  }

  function Eol(source: string): string { if HasReturnNewline(source) then "\r\n" else "\n" }

  function Formatted(o: FormatOptions, source: string): string {
    var output := FormatLines(o, Document(source));
    var eol := Eol(source);
    if EndsInNewline(source) then
      (if output != [] && output[|output| - 1] == [] then Join(output[..|output| - 1], eol) else Join(output, eol)) +
        eol
    else Join(output, eol)
  }

  method FormatOne(o: FormatOptions, indent: string, line: ParsedLine) returns (result: string)
    requires indent == Indent(o)
    ensures result == FormatLine(o, line)
  {
    hide TrimEnd, Trim;
    var formatted: string;
    match line.kind {
      case Empty => formatted := if line.comment.Some? then [] else line.text;
      case Label(name) => formatted := name + ":";
      case Instruction(m, operands) =>
        formatted := (if o.directivesAtColumnZero && (m == "alias" || m == "define") then [] else indent) + m;
        ghost var start := formatted;
        for j := 0 to |operands|
          invariant formatted == Spaced(start, operands[..j])
        {
          assert operands[..j + 1][..j] == operands[..j];
          formatted := formatted + " " + operands[j];
        }
        assert operands[..|operands|] == operands;
    }
    match line.comment {
      case None => result := TrimEnd(formatted);
      case Some(comment) => result := if Trim(formatted) == [] then comment else TrimEnd(formatted) + " " + comment;
    }
  }

  method FormatDocument(o: FormatOptions, source: string) returns (result: string)
    ensures result == Formatted(o, source)
  {
    hide FormatLine, Join;
    var lines := Document(source);
    var output: seq<string> := [];
    for i := 0 to |lines|
      invariant |output| == i && forall j :: 0 <= j < i ==> output[j] == FormatLine(o, lines[j])
    {
      var formatted := FormatOne(o, Indent(o), lines[i]);
      output := output + [formatted];
    }
    assert output == FormatLines(o, lines);
    var eol := Eol(source);
    var trailing := EndsInNewline(source);
    if trailing && output != [] && output[|output| - 1] == [] { output := output[..|output| - 1]; }
    result := Join(output, eol);
    if trailing { result := result + eol; }
  }

  // ----- one line -----

  lemma {:induction false} RepeatIsBlank(c: char, n: nat)
    requires IsWhitespace(c) && c != '\n'
    ensures IsCode(Repeat(c, n)) && Tokenize(Repeat(c, n)) == []
    ensures forall i :: 0 <= i < |Repeat(c, n)| ==> Repeat(c, n)[i] == c
  {
    if n > 0 {
      RepeatIsBlank(c, n - 1);
      SpaceIsCode(c);
      IsCodeAppend([c], Repeat(c, n - 1));
      SpaceSkipped(c, Repeat(c, n - 1));
    }
  }

  lemma IndentIsBlank(o: FormatOptions)
    ensures IsCode(Indent(o)) && Tokenize(Indent(o)) == []
    ensures Indent(o) != [] ==> IsWhitespace(Indent(o)[|Indent(o)| - 1])
  {
    RepeatIsBlank(' ', o.indentSize);
    RepeatIsBlank('\t', 1);
    assert Repeat('\t', 0) == [] && Repeat('\t', 1) == "\t";
  }

  /** Plain tokens separated by spaces read back as those tokens. */
  lemma {:induction false} SpacedTokens(code: string, operands: seq<string>)
    requires Neat(code) && forall t :: t in operands ==> IsPlain(t)
    ensures Neat(Spaced(code, operands)) && Tokenize(Spaced(code, operands)) == Tokenize(code) + operands
  {
    hide IsPlain, Neat, Tokens;
    if operands != [] {
      var n := |operands| - 1;
      SpacedTokens(code, operands[..n]);
      AddSpaced(Spaced(code, operands[..n]), operands[n]);
      assert operands == operands[..n] + [operands[n]];
    }
  }

  lemma AddSpaced(code: string, t: string)
    requires Neat(code) && IsPlain(t)
    ensures Neat(code + " " + t) && Tokenize(code + " " + t) == Tokenize(code) + [t]
  {
    SpaceIsCode(' ');
    IsCodeAppend(code, " ");
    SpaceEnds(code, ' ');
    assert code + " " == code + [' '];
    AddToken(code + " ", t);
  }

  /** A parsed line whose quotes are closed. */
  ghost predicate Proper(line: ParsedLine) {
    exists text :: line == ParseLine(text) && Balanced(CodePart(text)) && '\n' !in text && StripReturn(text) == text
  }

  /** The code of a line with tokens prints as neat text with the same tokens. */
  lemma CodeTextTokens(o: FormatOptions, line: ParsedLine)
    requires line.kind != Empty && Classify(TokensOf(line.kind)) == line.kind
    requires forall t :: t in TokensOf(line.kind) ==> IsPlain(t)
    ensures Neat(CodeText(o, line)) && Tokenize(CodeText(o, line)) == TokensOf(line.kind)
  {
    hide IsPlain, Tokens, Neat, Classify;
    IndentIsBlank(o);
    EmptyIsCode();
    match line.kind
    case Label(name) =>
      assert [] + (name + ":") == name + ":";
      AddToken([], name + ":");
    case Instruction(m, operands) =>
      var start := if o.directivesAtColumnZero && (m == "alias" || m == "define") then [] else Indent(o);
      assert m in TokensOf(line.kind);
      AddToken(start, m);
      SpacedTokens(start + m, operands);
  }

  lemma EmptyIsCode()
    ensures IsCode([]) && Tokenize([]) == []
  {}

  lemma NeatTrims(s: string)
    requires Neat(s)
    ensures TrimEnd(s) == s
  {}

  lemma {:induction false} TrimOfNeat(s: string)
    requires Neat(s)
    ensures Trim(s) != []
    decreases |s|
  {
    if IsWhitespace(s[0]) {
      assert |s| > 1;
      NeatTail(s);
      TrimOfNeat(s[1..]);
    }
  }

  lemma NeatTail(s: string)
    requires Neat(s) && IsWhitespace(s[0]) && |s| > 1
    ensures Neat(s[1..])
  {
    assert s[0..] == s;
    RestIsCode(s, 0);
  }

  /** A comment after neat code and a space is found where it starts. */
  lemma CommentAfterCode(code: string, comment: string)
    requires Neat(code) && comment != [] && comment[0] == '#'
    ensures CodePart(code + " " + comment) == code + " " && CommentPart(code + " " + comment) == Some(comment)
    ensures Tokenize(code + " ") == Tokenize(code)
  {
    var s := code + " ";
    SpaceIsCode(' ');
    IsCodeAppend(code, " ");
    assert s == code + [' '];
    SpaceEnds(code, ' ');
    CommentAppend(Outside, s, comment);
    assert CommentStart(Outside, comment) == Some(0);
    assert (s + comment)[..|s|] == s && (s + comment)[|s|..] == comment;
  }

  lemma {:induction false} BlankTrims(s: string)
    requires forall i :: 0 <= i < |s| ==> IsWhitespace(s[i])
    ensures TrimStart(s) == [] && TrimEnd(s) == []
  {
    if s != [] {
      assert IsWhitespace(s[0]) && IsWhitespace(s[|s| - 1]);
      BlankTrims(s[1..]);
      BlankTrims(s[..|s| - 1]);
    }
  }

  lemma ProperFacts(line: ParsedLine)
    requires Proper(line)
    ensures Classify(TokensOf(line.kind)) == line.kind
    ensures forall t :: t in TokensOf(line.kind) ==> IsPlain(t)
    ensures line.comment.Some? ==> IsComment(line.comment.value)
    ensures line.kind == Empty && line.comment.None? ==> TrimEnd(line.text) == []
  {
    var text :| line == ParseLine(text) && Balanced(CodePart(text)) && '\n' !in text && StripReturn(text) == text;
    CodeIsCode(text);
    TokensArePlain(CodePart(text));
    ClassifyKeepsTokens(Tokenize(CodePart(text)));
    if line.comment.Some? { CommentIsComment(text); }
    if line.kind == Empty && line.comment.None? {
      assert Tokenize(text) == TokensOf(line.kind);
      NoTokensIsBlank(text);
      BlankTrims(text);
    }
  }

  predicate IsComment(s: string) { s != [] && s[0] == '#' && '\n' !in s && StripReturn(s) == s }

  lemma CommentIsComment(text: string)
    requires CommentPart(text).Some? && '\n' !in text && StripReturn(text) == text
    ensures IsComment(CommentPart(text).value)
  {
    var c := CommentPart(text).value;
    assert c[|c| - 1] == text[|text| - 1];
  }

  lemma CommentReads(c: string)
    requires IsComment(c)
    ensures ParseLine(c) == ParsedLine(c, Some(c), Empty) && CodePart(c) == []
  {
    assert c[..0] == [] && c[0..] == c;
  }

  /** What a formatted line must be: read back it has the same kind and comment, and it ends in no stray return. */
  ghost predicate ReadsAs(s: string, line: ParsedLine) {
    && ParseLine(s).kind == line.kind && ParseLine(s).comment == line.comment
    && '\n' !in s && StripReturn(s) == s && Balanced(CodePart(s))
    && (line.kind == Empty && line.comment.None? ==> s == [])
  }

  /** A formatted line parses to the kind, the tokens and the comment of the original. */
  lemma FormatLineReads(o: FormatOptions, line: ParsedLine)
    requires Proper(line)
    ensures ReadsAs(FormatLine(o, line), line)
  {
    ProperFacts(line);
    hide Proper, IsPlain, TokensOf, Classify, Tokens;
    if line.kind == Empty {
      BlankLineReads(o, line);
    } else {
      CodeTextTokens(o, line);
      var code := CodeText(o, line);
      NeatTrims(code);
      TrimOfNeat(code);
      match line.comment
      case None => NeatCodeReads(code, line);
      case Some(c) => CommentedCodeReads(code, c, line);
    }
  }

  lemma BlankLineReads(o: FormatOptions, line: ParsedLine)
    requires line.kind == Empty && (line.comment.Some? ==> IsComment(line.comment.value))
    requires line.comment.None? ==> TrimEnd(line.text) == []
    ensures ReadsAs(FormatLine(o, line), line)
  {
    if line.comment.Some? { CommentReads(line.comment.value); }
  }

  lemma NeatCodeReads(code: string, line: ParsedLine)
    requires Neat(code) && Classify(Tokenize(code)) == line.kind && line.comment == None && line.kind != Empty
    ensures ReadsAs(code, line)
  {
    ParseNeat(code);
  }

  lemma CommentedCodeReads(code: string, c: string, line: ParsedLine)
    requires Neat(code) && IsComment(c) && Classify(Tokenize(code)) == line.kind && line.comment == Some(c)
    ensures ReadsAs(code + " " + c, line)
  {
    CommentAfterCode(code, c);
    var s := code + " " + c;
    assert s[|s| - 1] == c[|c| - 1];
    SpaceIsCode(' ');
    IsCodeAppend(code, " ");
  }

  lemma FormatDependsOn(o: FormatOptions, a: ParsedLine, b: ParsedLine)
    requires a.kind == b.kind && a.comment == b.comment
    requires a.kind == Empty && a.comment.None? ==> TrimEnd(a.text) == TrimEnd(b.text)
    ensures FormatLine(o, a) == FormatLine(o, b)
  {}

  /** Formatting a formatted line changes nothing. */
  lemma FormatLineAgain(o: FormatOptions, line: ParsedLine)
    requires Proper(line)
    ensures FormatLine(o, ParseLine(FormatLine(o, line))) == FormatLine(o, line)
  {
    FormatLineReads(o, line);
    ProperFacts(line);
    FormatDependsOn(o, ParseLine(FormatLine(o, line)), line);
  }

  // ----- layout -----

  /** How far an instruction is indented. */
  function Columns(o: FormatOptions, m: string): nat {
    if o.directivesAtColumnZero && m in {"alias", "define"} then 0 else if o.insertSpaces then o.indentSize else 1
  }

  /** The comment, one space behind the code. */
  function Remark(line: ParsedLine): string { match line.comment case None => [] case Some(c) => " " + c }

  /** Labels stand in the first column, instructions behind the indentation with single spaces between tokens. */
  predicate IsLaidOut(o: FormatOptions, line: ParsedLine, s: string) {
    match line.kind
    case Empty => s == (match line.comment case None => [] case Some(c) => c)
    case Label(name) => s == name + ":" + Remark(line)
    case Instruction(m, operands) =>
      var n := Columns(o, m);
      n <= |s| && (forall i :: 0 <= i < n ==> s[i] == if o.insertSpaces then ' ' else '\t')
      && s[n..] == Join([m] + operands, " ") + Remark(line)
  }

  lemma {:induction false} SpacedIsJoin(code: string, operands: seq<string>)
    ensures Spaced(code, operands) == Join([code] + operands, " ")
  {
    if operands != [] {
      var n := |operands| - 1;
      SpacedIsJoin(code, operands[..n]);
      JoinAppend([code] + operands[..n], operands[n], " ");
      assert [code] + operands[..n] + [operands[n]] == [code] + operands;
    }
  }

  lemma {:induction false} JoinAppend(lines: seq<string>, last: string, eol: string)
    requires lines != []
    ensures Join(lines + [last], eol) == Join(lines, eol) + eol + last
  {
    assert (lines + [last])[1..] == lines[1..] + [last];
    if |lines| > 1 { JoinAppend(lines[1..], last, eol); }
  }

  lemma {:induction false} SpacedBehind(indent: string, code: string, operands: seq<string>)
    ensures Spaced(indent + code, operands) == indent + Spaced(code, operands)
  {
    if operands != [] { SpacedBehind(indent, code, operands[..|operands| - 1]); }
  }

  lemma IndentIs(o: FormatOptions)
    ensures |Indent(o)| == (if o.insertSpaces then o.indentSize else 1)
    ensures forall i :: 0 <= i < |Indent(o)| ==> Indent(o)[i] == if o.insertSpaces then ' ' else '\t'
  {
    RepeatIs(' ', o.indentSize);
  }

  lemma {:induction false} RepeatIs(c: char, n: nat)
    ensures |Repeat(c, n)| == n && forall i :: 0 <= i < n ==> Repeat(c, n)[i] == c
  {
    if n > 0 { RepeatIs(c, n - 1); }
  }

  lemma CodeIsLaidOut(o: FormatOptions, line: ParsedLine)
    requires line.kind != Empty
    ensures IsLaidOut(o, line, CodeText(o, line) + Remark(line))
  {
    hide Remark;
    match line.kind
    case Label(_) =>
    case Instruction(m, operands) =>
      IndentIs(o);
      var indent := if o.directivesAtColumnZero && (m == "alias" || m == "define") then [] else Indent(o);
      SpacedBehind(indent, m, operands);
      SpacedIsJoin(m, operands);
      assert |indent| == Columns(o, m);
      assert (indent + Spaced(m, operands) + Remark(line))[|indent|..] == Spaced(m, operands) + Remark(line);
  }

  /** Every formatted line has the layout its kind asks for. */
  lemma FormatLineIsLaidOut(o: FormatOptions, line: ParsedLine)
    requires Proper(line)
    ensures IsLaidOut(o, line, FormatLine(o, line))
  {
    ProperFacts(line);
    hide Proper, IsPlain, TokensOf, Classify, Tokens;
    if line.kind != Empty {
      CodeTextTokens(o, line);
      var code := CodeText(o, line);
      NeatTrims(code);
      TrimOfNeat(code);
      CodeIsLaidOut(o, line);
      assert FormatLine(o, line) == code + Remark(line);
    }
  }

  // ----- documents -----

  /** The source's quotes are closed and its carriage returns come right before newlines. */
  ghost predicate ProperSource(source: string) {
    forall i :: 0 <= i < |SourceLines(source)| ==>
      Balanced(CodePart(SourceLines(source)[i])) && StripReturn(SourceLines(source)[i]) == SourceLines(source)[i]
  }

  function Terminated(lines: seq<string>, eol: string): string {
    if lines == [] then [] else lines[0] + eol + Terminated(lines[1..], eol)
  }

  lemma {:induction false} JoinIsTerminated(lines: seq<string>, eol: string)
    requires lines != []
    ensures Join(lines, eol) == Terminated(lines[..|lines| - 1], eol) + lines[|lines| - 1]
  {
    var n := |lines| - 1;
    if n > 0 {
      JoinIsTerminated(lines[1..], eol);
      assert lines[1..][..n - 1] == lines[..n][1..];
    }
  }

  lemma {:induction false} TerminatedAppend(lines: seq<string>, last: string, eol: string)
    ensures Terminated(lines + [last], eol) == Terminated(lines, eol) + last + eol
  {
    if lines == [] {
      assert Terminated([], eol) == [] && [last][1..] == [] && [] + [last] == [last];
    } else {
      assert (lines + [last])[1..] == lines[1..] + [last];
      TerminatedAppend(lines[1..], last, eol);
    }
  }

  lemma BlankFormats(o: FormatOptions)
    ensures FormatLine(o, ParseLine([])) == []
  {}

  lemma {:induction false} PiecesNonEmpty(line: string, s: string)
    requires line + s != []
    ensures Pieces(line, s) != []
    decreases |s|
  {
    if s != [] && s[0] != '\n' { PiecesNonEmpty(line + [s[0]], s[1..]); }
  }

  /** The formatted text: every document line but the last terminated, then the last. */
  lemma FormattedIs(o: FormatOptions, source: string)
    ensures var f := FormatLines(o, Document(source)); var n := |f| - 1;
      n >= 0 && Formatted(o, source) == Terminated(f[..n], Eol(source)) + f[n]
  {
    hide FormatLine, ParseLine, Pieces;
    var f := FormatLines(o, Document(source));
    if source != [] { PiecesNonEmpty([], source); }
    var n := |f| - 1;
    if EndsInNewline(source) {
      BlankFormats(o);
      assert f[n] == [];
      var init := f[..n];
      JoinIsTerminated(init, Eol(source));
      TerminatedAppend(init[..n - 1], init[n - 1], Eol(source));
      assert init == init[..n - 1] + [init[n - 1]];
    } else {
      JoinIsTerminated(f, Eol(source));
    }
  }

  function Ending(eol: string): string { if eol == "\r\n" then "\r" else [] }

  function Endings(lines: seq<string>, ending: string): (r: seq<string>)
    ensures |r| == |lines|
  {
    seq(|lines|, i requires 0 <= i < |lines| => lines[i] + ending)
  }

  lemma {:induction false} PiecesOfTerminated(lines: seq<string>, last: string, eol: string)
    requires (forall i :: 0 <= i < |lines| ==> '\n' !in lines[i]) && '\n' !in last && (eol == "\n" || eol == "\r\n")
    ensures Pieces([], Terminated(lines, eol) + last) == Endings(lines, Ending(eol)) + if last == [] then [] else [last]
  {
    hide Pieces;
    if lines == [] {
      PiecesOfLast([], last);
      assert [] + last == last && Terminated([], eol) + last == last;
    } else {
      var a, rest := lines[0] + Ending(eol), Terminated(lines[1..], eol) + last;
      PiecesOfLine([], a, rest);
      PiecesOfTerminated(lines[1..], last, eol);
      assert Terminated(lines, eol) + last == a + "\n" + rest;
      assert [] + a == a && Endings(lines, Ending(eol)) == [a] + Endings(lines[1..], Ending(eol));
    }
  }

  lemma StripEnding(s: string, eol: string)
    requires StripReturn(s) == s && (eol == "\n" || eol == "\r\n")
    ensures StripReturn(s + Ending(eol)) == s
  {
    assert (s + "\r")[..|s|] == s && s + [] == s;
  }

  lemma {:induction false} TerminatedEnds(lines: seq<string>, eol: string)
    requires eol == "\n" || eol == "\r\n"
    ensures lines != [] ==> EndsInNewline(Terminated(lines, eol))
  {
    if |lines| > 1 { TerminatedEnds(lines[1..], eol); }
      else if |lines| == 1 { assert Terminated(lines[1..], eol) == []; }
  }

  /** Parsing terminated lines and a last line gives exactly those lines. */
  lemma TerminatedReads(lines: seq<string>, last: string, eol: string)
    requires forall i :: 0 <= i < |lines| ==> '\n' !in lines[i] && StripReturn(lines[i]) == lines[i]
    requires '\n' !in last && StripReturn(last) == last && (eol == "\n" || eol == "\r\n")
    ensures Document(Terminated(lines, eol) + last) == ParseLines(lines + [last])
  {
    hide ParseLine, StripReturn, Pieces;
    var s := Terminated(lines, eol) + last;
    PiecesOfTerminated(lines, last, eol);
    TerminatedEnds(lines, eol);
    forall i | 0 <= i < |lines|
      ensures StripReturn(Endings(lines, Ending(eol))[i]) == lines[i]
    {
      StripEnding(lines[i], eol);
    }
    if last == [] {
      assert s == Terminated(lines, eol);
      assert SourceLines(s) == lines;
    } else {
      assert s[|s| - 1] == last[|last| - 1];
      assert SourceLines(s) == lines + [last];
      assert SourceLines(s) + [] == lines + [last];
    }
  }

  lemma DocumentIsProper(source: string)
    requires ProperSource(source)
    ensures forall i :: 0 <= i < |Document(source)| ==> Proper(Document(source)[i])
  {
    hide ParseLine;
    SourceLinesHaveNoNewline(source);
    EmptyIsCode();
    assert CodePart([]) == [] && StripReturn([]) == [];
    var texts := SourceLines(source) + if source == [] || source[|source| - 1] == '\n' then [[]] else [];
    assert Document(source) == ParseLines(texts);
    forall i | 0 <= i < |texts| ensures Proper(ParseLine(texts[i])) {}
  }

  /** Parsing the formatted text gives the formatted lines back. */
  lemma FormattedReads(o: FormatOptions, source: string)
    requires ProperSource(source)
    ensures Document(Formatted(o, source)) == ParseLines(FormatLines(o, Document(source)))
    ensures forall i ::
        0 <= i < |Document(source)| ==> ReadsAs(FormatLines(o, Document(source))[i], Document(source)[i])
  {
    hide Document, FormatLine, ReadsAs, ProperSource, Proper, Formatted, Eol, ParseLine;
    var d := Document(source);
    var f := FormatLines(o, d);
    DocumentIsProper(source);
    FormattedIs(o, source);
    var n := |f| - 1;
    forall i | 0 <= i < |f| ensures ReadsAs(f[i], d[i]) && '\n' !in f[i] && StripReturn(f[i]) == f[i] {
      FormatLineReads(o, d[i]);
      ReadsAsFacts(f[i], d[i]);
    }
    EolIs(source);
    TerminatedReads(f[..n], f[n], Eol(source));
    assert f[..n] + [f[n]] == f;
  }

  lemma ReadsAsFacts(s: string, line: ParsedLine)
    requires ReadsAs(s, line)
    ensures '\n' !in s && StripReturn(s) == s && ParseLine(s).kind == line.kind && ParseLine(s).comment == line.comment
  {}

  lemma EolIs(source: string)
    ensures Eol(source) == "\n" || Eol(source) == "\r\n"
  {}

  /** Formatting keeps the number of lines, their kinds, token texts and comments. */
  lemma FormattingKeepsProgram(o: FormatOptions, source: string)
    requires ProperSource(source)
    ensures var d, d' := Document(source), Document(Formatted(o, source));
      |d'| == |d| && forall i :: 0 <= i < |d| ==> d'[i].kind == d[i].kind && d'[i].comment == d[i].comment
  {
    hide Document, FormatLine, ReadsAs, ProperSource, Formatted, ParseLine;
    FormattedReads(o, source);
    var d := Document(source);
    forall i | 0 <= i < |d|
      ensures ParseLine(FormatLines(o, d)[i]).kind == d[i].kind
      ensures ParseLine(FormatLines(o, d)[i]).comment == d[i].comment {
      ReadsAsFacts(FormatLines(o, d)[i], d[i]);
    }
  }

  // ----- line endings -----

  /** Every line of the formatted document has the layout its kind asks for. */
  lemma DocumentIsLaidOut(o: FormatOptions, source: string)
    requires ProperSource(source)
    ensures var d, d' := Document(source), Document(Formatted(o, source));
      |d'| == |d| && forall i :: 0 <= i < |d| ==> IsLaidOut(o, d[i], d'[i].text)
  {
    var d := Document(source);
    DocumentIsProper(source);
    FormattedReads(o, source);
    hide Formatted, FormatLine, IsLaidOut, Proper, Document;
    forall i | 0 <= i < |d| ensures IsLaidOut(o, d[i], ParseLine(FormatLines(o, d)[i]).text) {
      FormatLineIsLaidOut(o, d[i]);
    }
  }

  lemma {:induction false} ManyPieces(line: string, s: string)
    requires '\n' in s && s[|s| - 1] != '\n'
    ensures |Pieces(line, s)| >= 2
    decreases |s|
  {
    if s[0] == '\n' {
      PiecesNonEmpty([], s[1..]);
    } else {
      ManyPieces(line + [s[0]], s[1..]);
    }
  }

  lemma NewlineMakesLines(source: string)
    requires '\n' in source
    ensures |Document(source)| >= 2
  {
    hide ParseLine, Pieces;
    PiecesNonEmpty([], source);
    if source[|source| - 1] != '\n' { ManyPieces([], source); }
  }

  lemma NewlineBetween(a: string, rest: string)
    requires '\n' !in a && StripReturn(a) == a && !HasReturnNewline(rest)
    ensures !HasReturnNewline(a + "\n" + rest)
  {
    var s := a + "\n" + rest;
    forall i | 0 <= i < |s| - 1 ensures !(s[i] == '\r' && s[i + 1] == '\n') {
      if i > |a| { assert s[i] == rest[i - |a| - 1] && s[i + 1] == rest[i - |a|]; }
      if i + 1 < |a| { assert s[i + 1] == a[i + 1] && a[i + 1] in a; }
    }
  }

  lemma TerminatedFirst(lines: seq<string>, last: string, eol: string)
    requires lines != []
    ensures Terminated(lines, eol) + last == lines[0] + eol + (Terminated(lines[1..], eol) + last)
  {}

  lemma {:induction false} NoStrayReturnNewline(lines: seq<string>, last: string)
    requires forall i :: 0 <= i < |lines| ==> '\n' !in lines[i] && StripReturn(lines[i]) == lines[i]
    requires '\n' !in last
    ensures !HasReturnNewline(Terminated(lines, "\n") + last)
  {
    if lines != [] {
      hide HasReturnNewline, StripReturn;
      assert forall i :: 0 <= i < |lines| - 1 ==> lines[1..][i] == lines[i + 1];
      NoStrayReturnNewline(lines[1..], last);
      TerminatedFirst(lines, last, "\n");
      NewlineBetween(lines[0], Terminated(lines[1..], "\n") + last);
    } else {
      assert Terminated(lines, "\n") + last == last;
    }
  }

  lemma FormattedEol(o: FormatOptions, source: string)
    requires ProperSource(source)
    ensures Eol(Formatted(o, source)) == Eol(source)
  {
    hide Document, FormatLine, ReadsAs, ProperSource, Formatted, ParseLine;
    var f := FormatLines(o, Document(source));
    var n := |f| - 1;
    FormattedIs(o, source);
    FormattedReads(o, source);
    forall i | 0 <= i < |f|
      ensures '\n' !in f[i] && StripReturn(f[i]) == f[i]
    {
      ReadsAsFacts(f[i], Document(source)[i]);
    }
    if HasReturnNewline(source) {
      NewlineMakesLines(source);
      var s := Formatted(o, source);
      assert f[..n][0] == f[0] && s[|f[0]|] == '\r' && s[|f[0]| + 1] == '\n';
    } else {
      NoStrayReturnNewline(f[..n], f[n]);
    }
  }

  /** Formatting twice is formatting once. */
  lemma FormattingIsIdempotent(o: FormatOptions, source: string)
    requires ProperSource(source)
    ensures Formatted(o, Formatted(o, source)) == Formatted(o, source)
  {
    hide Document, FormatLine, ReadsAs, ProperSource, Formatted, ParseLine, Eol, Proper;
    var d := Document(source);
    var f := FormatLines(o, d);
    FormattedReads(o, source);
    FormattedEol(o, source);
    FormattedIs(o, source);
    FormattedIs(o, Formatted(o, source));
    DocumentIsProper(source);
    forall i | 0 <= i < |f| ensures FormatLine(o, ParseLine(f[i])) == f[i] { FormatLineAgain(o, d[i]); }
    assert FormatLines(o, ParseLines(f)) == f;
  }
}
