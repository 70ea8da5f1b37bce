/**
 IC10 source text: the quote automaton shared by the comment scanner and the
 tokenizer, line splitting, and line classification.
 */
module Text {
  import opened Prelude

  /** The characters with the Unicode White_Space property. */
  predicate IsWhitespace(c: char) {
    || '\t' <= c <= '\r' || c == ' ' || c == '\U{85}' || c == '\U{A0}' || c == '\U{1680}'
    || '\U{2000}' <= c <= '\U{200A}' || c == '\U{2028}' || c == '\U{2029}' || c == '\U{202F}'
    || c == '\U{205F}' || c == '\U{3000}'
  }

  // ----- quotes -----

  datatype Quote = Outside | Inside | Escaped

  function Next(q: Quote, c: char): Quote {
    match q
    case Outside => if c == '"' then Inside else Outside
    case Inside => if c == '\\' then Escaped else if c == '"' then Outside else Inside
    case Escaped => Inside
  }

  function Scan(q: Quote, s: string): Quote
    decreases |s|
  {
    if s == [] then q else Scan(Next(q, s[0]), s[1..])
  }

  predicate Balanced(s: string) { Scan(Outside, s) == Outside }

  // ----- comments and tokens -----

  function CommentStart(q: Quote, s: string): (r: Option<nat>)
    ensures r.Some? ==> r.value < |s| && s[r.value] == '#' && Scan(q, s[..r.value]) == Outside
    decreases |s|
  {
    if s == [] then None
    else if q == Outside && s[0] == '#' then Some(0)
    else
      var rest := CommentStart(Next(q, s[0]), s[1..]);
      if rest.Some? then assert s[..rest.value + 1][1..] == s[1..][..rest.value]; Some(rest.value + 1) else None
  }

  /** The tokens of `s` when the scanner is in state `q` and has already collected `token`. */
  function Tokens(q: Quote, token: string, s: string): seq<string>
    decreases |s|
  {
    var flushed := if token == [] then [] else [token];
    if s == [] then flushed
    else if q == Outside && IsWhitespace(s[0]) then flushed + Tokens(Outside, [], s[1..])
    else Tokens(Next(q, s[0]), token + [s[0]], s[1..])
  }

  function Tokenize(s: string): seq<string> { Tokens(Outside, [], s) }

  method FindComment(line: string) returns (start: Option<nat>)
    ensures start == CommentStart(Outside, line)
  {
    var quoted, escaped := false, false;
    for index := 0 to |line|
      invariant escaped ==> quoted
      invariant var rest := CommentStart(State(quoted, escaped), line[index..]);
        CommentStart(Outside, line) == if rest.Some? then Some(index + rest.value) else None
    {
      var character := line[index];
      assert line[index..][1..] == line[index + 1..];
      if escaped {
        escaped := false;
      } else if character == '\\' && quoted {
        escaped := true;
      } else if character == '"' {
        quoted := !quoted;
      } else if character == '#' && !quoted {
        return Some(index);
      }
    }
    start := None;
  }

  /** The automaton state held in the source's two flags. */
  function State(quoted: bool, escaped: bool): Quote {
    if escaped then Escaped else if quoted then Inside else Outside
  }

  method SplitTokens(code: string) returns (tokens: seq<string>)
    ensures tokens == Tokenize(code)
  {
    assert code[0..] == code;
    hide Tokens, IsWhitespace;
    tokens := [];
    var tokenStart: Option<nat> := None;
    var quoted, escaped := false, false;
    ghost var token := [];
    for index := 0 to |code|
      invariant escaped ==> quoted
      invariant tokenStart.Some? ==> tokenStart.value < index && token == code[tokenStart.value..index]
      invariant tokenStart.None? ==> !quoted && token == []
      invariant Tokenize(code) == tokens + Tokens(State(quoted, escaped), token, code[index..])
    {
      var character := code[index];
      assert code[index..][1..] == code[index + 1..];
      TokensStep(State(quoted, escaped), token, code[index..]);
      if IsWhitespace(character) && !quoted {
        if tokenStart.Some? {
          assert tokens + ([token] + Tokens(Outside, [], code[index + 1..]))
              == tokens + [token] + Tokens(Outside, [], code[index + 1..]);
          tokens := tokens + [code[tokenStart.value..index]];
          tokenStart := None;
        } else {
          assert [] + Tokens(Outside, [], code[index + 1..]) == Tokens(Outside, [], code[index + 1..]);
        }
        token := [];
      } else {
        if tokenStart.None? { tokenStart := Some(index); }
        assert code[tokenStart.value..index + 1] == token + [character];
        token := token + [character];
        if escaped {
          escaped := false;
        } else if character == '\\' && quoted {
          escaped := true;
        } else if character == '"' {
          quoted := !quoted;
        }
      }
    }
    assert code[|code|..] == [];
    TokensEnd(State(quoted, escaped), token);
    if tokenStart.Some? {
      assert code[tokenStart.value..] == code[tokenStart.value..|code|];
      tokens := tokens + [code[tokenStart.value..]];
    } else {
      assert tokens + [] == tokens;
    }
  }

  lemma TokensStep(q: Quote, token: string, s: string)
    requires s != []
    ensures Tokens(q, token, s) ==
      if q == Outside && IsWhitespace(s[0]) then (if token == [] then [] else [token]) + Tokens(Outside, [], s[1..])
      else Tokens(Next(q, s[0]), token + [s[0]], s[1..])
  {}

  lemma TokensEnd(q: Quote, token: string)
    ensures Tokens(q, token, []) == if token == [] then [] else [token]
  {}

  lemma {:induction false} NoTokensIsBlank(s: string)
    requires Tokenize(s) == []
    ensures forall i :: 0 <= i < |s| ==> IsWhitespace(s[i])
  {
    if s != [] {
      assert [] + [s[0]] == [s[0]];
      if IsWhitespace(s[0]) { NoTokensIsBlank(s[1..]); } else { TokenStays(Next(Outside, s[0]), [s[0]], s[1..]); }
    }
  }

  lemma {:induction false} TokenStays(q: Quote, token: string, s: string)
    requires token != []
    ensures Tokens(q, token, s) != []
    decreases |s|
  {
    if s != [] && !(q == Outside && IsWhitespace(s[0])) { TokenStays(Next(q, s[0]), token + [s[0]], s[1..]); }
  }

  // ----- lines -----

  datatype LineKind = Empty | Label(name: string) | Instruction(mnemonic: string, operands: seq<string>)

  function Classify(tokens: seq<string>): LineKind {
    if tokens == [] then Empty
    else if |tokens| == 1 && tokens[0] != [] && tokens[0][|tokens[0]| - 1] == ':' then
      Label(tokens[0][..|tokens[0]| - 1])
    else Instruction(tokens[0], tokens[1..])
  }

  datatype ParsedLine = ParsedLine(text: string, comment: Option<string>, kind: LineKind)

  /** The part of a line before its comment. */
  function CodePart(text: string): string {
    match CommentStart(Outside, text) case None => text case Some(start) => text[..start]
  }

  function CommentPart(text: string): Option<string> {
    match CommentStart(Outside, text) case None => None case Some(start) => Some(text[start..])
  }

  function ParseLine(text: string): ParsedLine {
    ParsedLine(text, CommentPart(text), Classify(Tokenize(CodePart(text))))
  }

  /**
   The newline-terminated pieces of `s` after the partial line `line`; a last unterminated piece counts if
   non-empty.
   */
  function Pieces(line: string, s: string): seq<string>
    decreases |s|
  {
    if s == [] then (if line == [] then [] else [line])
    else if s[0] == '\n' then [line] + Pieces([], s[1..])
    else Pieces(line + [s[0]], s[1..])
  }

  function StripReturn(line: string): string {
    if line != [] && line[|line| - 1] == '\r' then line[..|line| - 1] else line
  }

  function Stripped(lines: seq<string>): (r: seq<string>)
    ensures |r| == |lines|
  {
    seq(|lines|, i requires 0 <= i < |lines| => StripReturn(lines[i]))
  }

  /** The physical lines of a source. */
  function SourceLines(source: string): seq<string> { Stripped(Pieces([], source)) }

  function ParseLines(lines: seq<string>): (r: seq<ParsedLine>)
    ensures |r| == |lines|
  {
    seq(|lines|, i requires 0 <= i < |lines| => ParseLine(lines[i]))
  }

  /** The parsed document: its physical lines, then one empty line if the source is empty or ends in a newline. */
  function Document(source: string): seq<ParsedLine> {
    ParseLines(SourceLines(source) +
      if source == [] || source[|source| - 1] == '\n' then [[]] else [])
  }

  function Kinds(lines: seq<ParsedLine>): (r: seq<LineKind>)
    ensures |r| == |lines|
  {
    seq(|lines|, i requires 0 <= i < |lines| => lines[i].kind)
  }

  // ----- trimming -----

  function TrimStart(s: string): string {
    if s != [] && IsWhitespace(s[0]) then TrimStart(s[1..]) else s
  }

  function TrimEnd(s: string): string {
    if s != [] && IsWhitespace(s[|s| - 1]) then TrimEnd(s[..|s| - 1]) else s
  }

  function Trim(s: string): string { TrimEnd(TrimStart(s)) }

  // ----- lemmas: the automaton over concatenations -----

  lemma {:induction false} ScanAppend(q: Quote, a: string, b: string)
    ensures Scan(q, a + b) == Scan(Scan(q, a), b)
    decreases |a|
  {
    if a == [] {
      assert a + b == b;
    } else {
      assert (a + b)[1..] == a[1..] + b;
      ScanAppend(Next(q, a[0]), a[1..], b);
    }
  }

  /** A space outside quotes separates the tokens before it from the tokens after it. */
  lemma {:induction false} TokensSplit(q: Quote, token: string, a: string, w: char, b: string)
    requires Scan(q, a) == Outside && IsWhitespace(w)
    ensures Tokens(q, token, a + [w] + b) == Tokens(q, token, a) + Tokenize(b)
    decreases |a|
  {
    var s := a + [w] + b;
    if a == [] {
      assert s[1..] == b;
    } else {
      assert s[1..] == a[1..] + [w] + b;
      if q == Outside && IsWhitespace(a[0]) {
        TokensSplit(Outside, [], a[1..], w, b);
      } else {
        TokensSplit(Next(q, a[0]), token + [a[0]], a[1..], w, b);
      }
    }
  }

  function Later(start: Option<nat>, n: nat): Option<nat> { match start case None => None case Some(i) => Some(n + i) }

  lemma CommentStep(q: Quote, s: string)
    requires s != []
    ensures CommentStart(q, s) == if q == Outside && s[0] == '#' then Some(0)
        else Later(CommentStart(Next(q, s[0]), s[1..]), 1)
  {}

  lemma {:induction false} CommentAppend(q: Quote, a: string, b: string)
    requires CommentStart(q, a).None?
    ensures CommentStart(q, a + b) == Later(CommentStart(Scan(q, a), b), |a|)
    decreases |a|
  {
    if a == [] {
      assert a + b == b;
    } else {
      assert (a + b)[0] == a[0] && (a + b)[1..] == a[1..] + b;
      CommentStep(q, a);
      CommentStep(q, a + b);
      hide CommentStart;
      CommentAppend(Next(q, a[0]), a[1..], b);
    }
  }

  lemma {:induction false} CommentOfPrefix(q: Quote, a: string, b: string)
    requires CommentStart(q, a + b).None?
    ensures CommentStart(q, a).None?
    decreases |a|
  {
    if a != [] {
      assert (a + b)[1..] == a[1..] + b;
      CommentOfPrefix(Next(q, a[0]), a[1..], b);
    }
  }

  lemma {:induction false} CodeHasNoComment(q: Quote, s: string)
    ensures match CommentStart(q, s) case None => true case Some(i) => CommentStart(q, s[..i]).None?
    decreases |s|
  {
    if s != [] && CommentStart(q, s).Some? && CommentStart(q, s).value > 0 {
      var i := CommentStart(q, s).value;
      CodeHasNoComment(Next(q, s[0]), s[1..]);
      assert s[..i][1..] == s[1..][..i - 1];
    }
  }

  // ----- lemmas: single tokens -----

  /** No space outside quotes. */
  predicate Solid(q: Quote, s: string)
    decreases |s|
  {
    s != [] ==> !(q == Outside && IsWhitespace(s[0])) && Solid(Next(q, s[0]), s[1..])
  }

  /** A token: non-empty, quotes closed, no space outside them. */
  predicate IsToken(t: string) { t != [] && Solid(Outside, t) && Balanced(t) }

  lemma {:induction false} SolidAppend(q: Quote, a: string, b: string)
    ensures Solid(q, a + b) <==> Solid(q, a) && Solid(Scan(q, a), b)
    decreases |a|
  {
    if a == [] {
      assert a + b == b;
    } else {
      assert (a + b)[1..] == a[1..] + b;
      SolidAppend(Next(q, a[0]), a[1..], b);
    }
  }

  lemma {:induction false} SolidIsOneToken(q: Quote, token: string, s: string)
    requires Solid(q, s)
    ensures Tokens(q, token, s) == if token + s == [] then [] else [token + s]
    decreases |s|
  {
    if s == [] {
      assert token + s == token;
    } else {
      SolidIsOneToken(Next(q, s[0]), token + [s[0]], s[1..]);
      assert token + [s[0]] + s[1..] == token + s;
    }
  }

  /** Balanced text tokenizes into tokens. */
  lemma {:induction false} TokensAreTokens(q: Quote, token: string, s: string)
    requires Solid(Outside, token) && Scan(Outside, token) == q && Scan(q, s) == Outside
    ensures forall t :: t in Tokens(q, token, s) ==> IsToken(t)
    decreases |s|
  {
    if s != [] {
      if q == Outside && IsWhitespace(s[0]) {
        TokensAreTokens(Outside, [], s[1..]);
      } else {
        SolidAppend(Outside, token, [s[0]]);
        ScanAppend(Outside, token, [s[0]]);
        assert [s[0]][1..] == [];
        TokensAreTokens(Next(q, s[0]), token + [s[0]], s[1..]);
      }
    }
  }

  /** The end of a token is not a space. */
  lemma {:induction false} TokenEnd(t: string)
    requires IsToken(t)
    ensures !IsWhitespace(t[0]) && !IsWhitespace(t[|t| - 1])
  {
    var n := |t| - 1;
    assert t == t[..n] + [t[n]];
    ScanAppend(Outside, t[..n], [t[n]]);
    SolidAppend(Outside, t[..n], [t[n]]);
    assert [t[n]][1..] == [];
    assert Scan(Scan(Outside, t[..n]), [t[n]]) == Next(Scan(Outside, t[..n]), t[n]);
  }

  /** Balanced text that starts with a non-space starts with its first token. */
  lemma {:induction false} FirstToken(q: Quote, token: string, s: string) returns (n: nat)
    requires token + s != [] && Scan(q, s) == Outside
    requires Scan(Outside, token) == q && Solid(Outside, token)
    requires s == [] || !(q == Outside && IsWhitespace(s[0])) || token != []
    ensures n <= |s| && IsToken(token + s[..n]) && Scan(q, s[..n]) == Outside
    ensures Tokens(q, token, s) == [token + s[..n]] + Tokenize(s[n..])
    ensures n < |s| ==> IsWhitespace(s[n])
    decreases |s|
  {
    if s == [] {
      n := 0;
      assert token + s[..0] == token;
    } else if q == Outside && IsWhitespace(s[0]) {
      n := 0;
      assert token + s[..0] == token;
      assert s[0..] == s && s == [] + [s[0]] + s[1..];
      TokensSplit(Outside, [], [], s[0], s[1..]);
    } else {
      SolidAppend(Outside, token, [s[0]]);
      ScanAppend(Outside, token, [s[0]]);
      assert [s[0]][1..] == [];
      var m := FirstToken(Next(q, s[0]), token + [s[0]], s[1..]);
      n := m + 1;
      assert token + [s[0]] + s[1..][..m] == token + s[..n];
      assert s[..n][1..] == s[1..][..m] && s[1..][m..] == s[n..];
    }
  }

  // ----- lemmas: trimming -----

  lemma {:induction false} TrimStartKeeps(s: string) returns (k: nat)
    ensures k <= |s| && TrimStart(s) == s[k..] && Tokenize(s[k..]) == Tokenize(s) && Scan(Outside, s[..k]) == Outside
    ensures CommentStart(Outside, s).None? ==> CommentStart(Outside, s[k..]).None?
    ensures k < |s| ==> !IsWhitespace(s[k])
  {
    if s != [] && IsWhitespace(s[0]) {
      k := TrimStartKeeps(s[1..]);
      assert s[..k + 1][1..] == s[1..][..k] && s[1..][k..] == s[k + 1..];
      k := k + 1;
    } else {
      k := 0;
      assert s[0..] == s;
    }
  }

  lemma {:induction false} TrimEndKeeps(s: string) returns (k: nat)
    requires Balanced(s)
    ensures k <= |s| && TrimEnd(s) == s[..k] && Balanced(s[..k]) && Tokenize(s[..k]) == Tokenize(s)
    ensures k > 0 ==> !IsWhitespace(s[k - 1])
  {
    if s != [] && IsWhitespace(s[|s| - 1]) {
      var n := |s| - 1;
      assert s == s[..n] + [s[n]] && s == s[..n] + [s[n]] + [];
      ScanAppend(Outside, s[..n], [s[n]]);
      assert [s[n]][1..] == [];
      assert Scan(Scan(Outside, s[..n]), [s[n]]) == Next(Scan(Outside, s[..n]), s[n]);
      k := TrimEndKeeps(s[..n]);
      TokensSplit(Outside, [], s[..n], s[n], []);
      assert s[..n][..k] == s[..k];
    } else {
      k := |s|;
      assert s[..|s|] == s;
    }
  }

  /** Trimmed code: what a generated line must look like. */
  predicate Clean(s: string) {
    && s != [] && !IsWhitespace(s[0]) && !IsWhitespace(s[|s| - 1])
    && Balanced(s) && CommentStart(Outside, s).None? && '\n' !in s
  }

  /** Trimming balanced code keeps its tokens, and leaves clean text unless it was blank. */
  lemma TrimKeeps(s: string)
    requires Balanced(s) && CommentStart(Outside, s).None? && '\n' !in s
    ensures Tokenize(Trim(s)) == Tokenize(s)
    ensures if Trim(s) == [] then Tokenize(s) == [] else Clean(Trim(s))
  {
    var k := TrimStartKeeps(s);
    var u := s[k..];
    assert s == s[..k] + u;
    ScanAppend(Outside, s[..k], u);
    var j := TrimEndKeeps(u);
    assert u == u[..j] + u[j..];
    CommentOfPrefix(Outside, u[..j], u[j..]);
  }

  /** Clean text has at least one token. */
  lemma CleanHasTokens(s: string)
    requires Clean(s)
    ensures Tokenize(s) != []
  {
    var n := FirstToken(Outside, [], s);
  }

  // ----- lemmas: lines -----

  function Unlines(lines: seq<string>): string {
    if lines == [] then [] else lines[0] + "\n" + Unlines(lines[1..])
  }

  lemma {:induction false} PiecesOfLast(line: string, last: string)
    requires '\n' !in last
    ensures Pieces(line, last) == if line + last == [] then [] else [line + last]
    decreases |last|
  {
    if last != [] {
      PiecesOfLast(line + [last[0]], last[1..]);
      assert line + [last[0]] + last[1..] == line + last;
    } else {
      assert line + last == line;
    }
  }

  lemma {:induction false} PiecesOfLine(line: string, a: string, b: string)
    requires '\n' !in a
    ensures Pieces(line, a + "\n" + b) == [line + a] + Pieces([], b)
    decreases |a|
  {
    var s := a + "\n" + b;
    if a == [] {
      assert s[1..] == b && line + a == line;
    } else {
      assert s[1..] == a[1..] + "\n" + b;
      PiecesOfLine(line + [a[0]], a[1..], b);
      assert line + [a[0]] + a[1..] == line + a;
    }
  }

  /** Writing lines out and splitting them again gives the lines back. */
  lemma {:induction false} PiecesOfUnlines(lines: seq<string>)
    requires forall i :: 0 <= i < |lines| ==> '\n' !in lines[i]
    ensures Pieces([], Unlines(lines)) == lines
  {
    if lines != [] {
      PiecesOfLine([], lines[0], Unlines(lines[1..]));
      PiecesOfUnlines(lines[1..]);
      assert [] + lines[0] == lines[0];
    }
  }

  lemma {:induction false} UnlinesEnds(lines: seq<string>)
    ensures lines != [] ==> Unlines(lines) != [] && Unlines(lines)[|Unlines(lines)| - 1] == '\n'
  {
    if |lines| > 1 { UnlinesEnds(lines[1..]); }
  }

  lemma {:induction false} PiecesHaveNoNewline(line: string, s: string)
    requires '\n' !in line
    ensures forall p :: p in Pieces(line, s) ==> '\n' !in p
    decreases |s|
  {
    if s != [] {
      if s[0] == '\n' { PiecesHaveNoNewline([], s[1..]); } else { PiecesHaveNoNewline(line + [s[0]], s[1..]); }
    }
  }

  /** No physical line contains a newline. */
  lemma SourceLinesHaveNoNewline(source: string)
    ensures forall i :: 0 <= i < |SourceLines(source)| ==> '\n' !in SourceLines(source)[i]
  {
    PiecesHaveNoNewline([], source);
    forall i | 0 <= i < |SourceLines(source)| ensures '\n' !in SourceLines(source)[i] {
      assert Pieces([], source)[i] in Pieces([], source);
    }
  }
}
