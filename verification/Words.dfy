/** Rewriting the words of a line in place, and what that does to its tokens. */
module Words {
  import opened Prelude
  import opened Text

  type Substitution = map<string, string>

  function Sub(r: Substitution, word: string): string { if word != [] && word in r then r[word] else word }

  function SubAll(r: Substitution, words: seq<string>): (s: seq<string>)
    ensures |s| == |words|
  {
    seq(|words|, i requires 0 <= i < |words| => Sub(r, words[i]))
  }

  /** `replace_tokens` with `word` already collected: whitespace splits words even inside quotes. */
  function Replaced(r: Substitution, word: string, s: string): string
    decreases |s|
  {
    if s == [] then Sub(r, word)
    else if IsWhitespace(s[0]) then Sub(r, word) + [s[0]] + Replaced(r, [], s[1..])
    else Replaced(r, word + [s[0]], s[1..])
  }

  function ReplaceTokens(s: string, r: Substitution): string { Replaced(r, [], s) }

  lemma ReplacedNext(r: Substitution, word: string, s: string, i: nat)
    requires i < |s|
    ensures Replaced(r, word, s[i..]) ==
      if IsWhitespace(s[i]) then Sub(r, word) + [s[i]] + Replaced(r, [], s[i + 1..])
      else Replaced(r, word + [s[i]], s[i + 1..])
  {
    assert s[i..][1..] == s[i + 1..];
  }

  /** One pass over the characters and a closing space, which is dropped again. */
  method ReplaceEveryToken(source: string, r: Substitution) returns (result: string)
    ensures result == ReplaceTokens(source, r)
  {
    result := [];
    var token := "";
    var characters := source + " ";
    ghost var whole := Replaced(r, [], characters);
    assert characters == source + [' '] + [];
    ReplacedSplits(r, [], source, ' ', []);
    assert Replaced(r, [], []) == [] && characters[0..] == characters && characters[|characters|..] == [];
    hide Replaced, IsWhitespace;
    for i := 0 to |characters|
      invariant result + Replaced(r, token, characters[i..]) == whole
      invariant i == |characters| ==> token == []
    {
      var character := characters[i];
      ReplacedNext(r, token, characters, i);
      if IsWhitespace(character) {
        result := result + Sub(r, token) + [character];
        token := "";
      } else {
        token := token + [character];
      }
    }
    assert result == whole == ReplaceTokens(source, r) + " ";
    result := result[..|result| - 1];
  }

  // ----- one token at a time -----

  lemma {:induction false} ReplacedSplits(r: Substitution, word: string, a: string, w: char, b: string)
    requires IsWhitespace(w)
    ensures Replaced(r, word, a + [w] + b) == Replaced(r, word, a) + [w] + ReplaceTokens(b, r)
    decreases |a|
  {
    var s := a + [w] + b;
    if a == [] {
      assert s[1..] == b;
    } else {
      assert s[1..] == a[1..] + [w] + b;
      ReplacedSplits(r, if IsWhitespace(a[0]) then [] else word + [a[0]], a[1..], w, b);
    }
  }

  predicate IsWord(s: string) { s != [] && forall i :: 0 <= i < |s| ==> !IsWhitespace(s[i]) }

  lemma {:induction false} ReplacedWord(r: Substitution, word: string, s: string)
    requires forall i :: 0 <= i < |s| ==> !IsWhitespace(s[i])
    ensures Replaced(r, word, s) == Sub(r, word + s)
    decreases |s|
  {
    if s == [] {
      assert word + s == word;
    } else {
      ReplacedWord(r, word + [s[0]], s[1..]);
      assert word + [s[0]] + s[1..] == word + s;
    }
  }

  /** The whitespace-separated words of a string, after the partial word `word`. */
  function WordsOf(word: string, s: string): set<string>
    decreases |s|
  {
    if s == [] then {word}
    else if IsWhitespace(s[0]) then {word} + WordsOf([], s[1..])
    else WordsOf(word + [s[0]], s[1..])
  }

  lemma {:induction false} ReplacedNothing(r: Substitution, word: string, s: string)
    requires WordsOf(word, s) !! r.Keys
    ensures Replaced(r, word, s) == word + s
    decreases |s|
  {
    if s == [] {
      assert word in WordsOf(word, s);
    } else if IsWhitespace(s[0]) {
      assert word in WordsOf(word, s);
      ReplacedNothing(r, [], s[1..]);
      assert word + [s[0]] + s[1..] == word + s;
    } else {
      ReplacedNothing(r, word + [s[0]], s[1..]);
      assert word + [s[0]] + s[1..] == word + s;
    }
  }

  /** Quoted text is safe when none of the words in it is replaced. */
  predicate SafeToken(r: Substitution, t: string) { IsWord(t) || (t !in r && WordsOf([], t) !! r.Keys) }

  lemma ReplacedToken(r: Substitution, t: string)
    requires SafeToken(r, t)
    ensures ReplaceTokens(t, r) == Sub(r, t)
  {
    if IsWord(t) { ReplacedWord(r, [], t); assert [] + t == t; } else { ReplacedNothing(r, [], t); assert [] + t == t; }
  }

  // ----- a whole line -----

  /** Text that can stand in a generated line without opening a quote, a comment or a new line. */
  predicate IsPlain(t: string) { IsToken(t) && CommentStart(Outside, t).None? && '\n' !in t }

  /** Balanced text without a comment or newline. */
  predicate IsCode(s: string) { Balanced(s) && CommentStart(Outside, s).None? && '\n' !in s }

  lemma IsCodeAppend(a: string, b: string)
    requires IsCode(a)
    ensures IsCode(a + b) <==> IsCode(b)
  {
    ScanAppend(Outside, a, b);
    CommentAppend(Outside, a, b);
  }

  lemma IsCodePrefix(a: string, b: string)
    requires IsCode(a + b) && Balanced(a)
    ensures IsCode(a) && IsCode(b)
  {
    CommentOfPrefix(Outside, a, b);
    assert forall c :: c in a ==> c in a + b;
    IsCodeAppend(a, b);
  }

  lemma SpaceIsCode(w: char)
    requires IsWhitespace(w) && w != '\n'
    ensures IsCode([w])
  {
    assert [w][1..] == [] && Scan(Next(Outside, w), []) == Next(Outside, w);
  }

  lemma SpaceSkipped(w: char, rest: string)
    requires IsWhitespace(w)
    ensures Tokenize([w] + rest) == Tokenize(rest)
  {
    assert ([w] + rest)[1..] == rest;
  }

  /** What a substitution must be for a line: safe on every token, and giving plain tokens. */
  ghost predicate Fits(r: Substitution, tokens: seq<string>) {
    forall t :: t in tokens ==> SafeToken(r, t) && (t in r ==> IsPlain(r[t]))
  }

  predicate NoTrailingSpace(s: string) { s != [] ==> !IsWhitespace(s[|s| - 1]) }

  /** Replacing words replaces tokens, and the line stays well formed. */
  lemma {:induction false} ReplaceTokensTokens(s: string, r: Substitution)
    requires IsCode(s) && Fits(r, Tokenize(s))
    ensures IsCode(ReplaceTokens(s, r)) && Tokenize(ReplaceTokens(s, r)) == SubAll(r, Tokenize(s))
    ensures NoTrailingSpace(s) ==> NoTrailingSpace(ReplaceTokens(s, r))
    ensures s != [] ==> ReplaceTokens(s, r) != []
    decreases |s|
  {
    hide IsPlain, SafeToken, IsToken;
    if s == [] {
    } else if IsWhitespace(s[0]) {
      AfterSpace(s, r);
    } else {
      var n := FirstToken(Outside, [], s);
      var t := s[..n];
      assert [] + t == t;
      assert t in Tokenize(s);
      FirstTokenReplaced(s, r, n);
    }
  }

  lemma {:induction false} AfterSpace(s: string, r: Substitution)
    requires IsCode(s) && Fits(r, Tokenize(s)) && s != [] && IsWhitespace(s[0])
    ensures IsCode(ReplaceTokens(s, r)) && Tokenize(ReplaceTokens(s, r)) == SubAll(r, Tokenize(s))
    ensures NoTrailingSpace(s) ==> NoTrailingSpace(ReplaceTokens(s, r))
    decreases |s|, 0
  {
    hide Fits;
    var rest := s[1..];
    assert s == [s[0]] + rest;
    SpaceSkipped(s[0], rest);
    SpaceIsCode(s[0]);
    IsCodeAppend([s[0]], rest);
    ReplaceTokensTokens(rest, r);
    IsCodeAppend([s[0]], ReplaceTokens(rest, r));
    assert ([s[0]] + ReplaceTokens(rest, r))[1..] == ReplaceTokens(rest, r);
  }

  lemma SubIsPlain(r: Substitution, t: string)
    requires IsPlain(t) && (t in r ==> IsPlain(r[t]))
    ensures IsPlain(Sub(r, t)) && IsCode(Sub(r, t)) && Tokenize(Sub(r, t)) == [Sub(r, t)]
    ensures Sub(r, t) != [] && NoTrailingSpace(Sub(r, t))
  {
    var u := Sub(r, t);
    SolidIsOneToken(Outside, [], u);
    assert [] + u == u;
    TokenEnd(u);
  }

  lemma SubAllCons(r: Substitution, t: string, ts: seq<string>)
    ensures SubAll(r, [t] + ts) == [Sub(r, t)] + SubAll(r, ts)
  {}

  lemma TokenThenRest(t: string, w: char, rest: string, r: Substitution)
    requires IsPlain(t) && SafeToken(r, t) && (t in r ==> IsPlain(r[t]))
    requires IsWhitespace(w) && w != '\n' && IsCode(ReplaceTokens(rest, r))
    ensures var s := ReplaceTokens(t + [w] + rest, r);
      && IsCode(s) && Tokenize(s) == [Sub(r, t)] + Tokenize(ReplaceTokens(rest, r)) && s != []
      && (ReplaceTokens(rest, r) != [] && NoTrailingSpace(ReplaceTokens(rest, r)) ==> NoTrailingSpace(s))
  {
    hide IsCode, Tokens, IsPlain, SafeToken;
    ReplacedToken(r, t);
    SubIsPlain(r, t);
    ReplacedSplits(r, [], t, w, rest);
    Rejoin(Sub(r, t), w, ReplaceTokens(rest, r));
  }

  lemma OnlyToken(t: string, r: Substitution)
    requires IsPlain(t) && SafeToken(r, t) && (t in r ==> IsPlain(r[t]))
    ensures var s := ReplaceTokens(t, r);
      IsCode(s) && Tokenize(s) == [Sub(r, t)] && s != [] && NoTrailingSpace(s)
  {
    ReplacedToken(r, t);
    SubIsPlain(r, t);
  }

  lemma {:induction false} FirstTokenReplaced(s: string, r: Substitution, n: nat)
    requires IsCode(s) && Fits(r, Tokenize(s)) && s != [] && n <= |s|
    requires IsToken(s[..n]) && Tokenize(s) == [s[..n]] + Tokenize(s[n..])
    requires n < |s| ==> IsWhitespace(s[n])
    ensures IsCode(ReplaceTokens(s, r)) && Tokenize(ReplaceTokens(s, r)) == SubAll(r, Tokenize(s))
    ensures NoTrailingSpace(s) ==> NoTrailingSpace(ReplaceTokens(s, r))
    ensures ReplaceTokens(s, r) != []
    decreases |s|, 0
  {
    assert Tokenize([]) == [];
    var t := s[..n];
    assert s == t + s[n..];
    TokenIsBalanced(t);
    IsCodePrefix(t, s[n..]);
    assert t in Tokenize(s);
    SubAllCons(r, t, Tokenize(s[n..]));
    hide IsToken, SafeToken, IsCode, Tokens, Replaced;
    if n == |s| {
      assert s == t && s[n..] == [] && SubAll(r, []) == [];
      OnlyToken(t, r);
    } else {
      var rest := s[n + 1..];
      assert s[n..] == [s[n]] + rest && s == t + [s[n]] + rest;
      RestIsCode(s, n);
      SpaceSkipped(s[n], rest);
      ReplaceTokensTokens(rest, r);
      TokenThenRest(t, s[n], rest, r);
    }
  }

  lemma RestIsCode(s: string, n: nat)
    requires n < |s| && IsCode(s[n..]) && IsWhitespace(s[n])
    ensures s[n] != '\n' && IsCode(s[n + 1..])
  {
    assert s[n..] == [s[n]] + s[n + 1..];
    assert s[n] in s[n..];
    SpaceIsCode(s[n]);
    IsCodeAppend([s[n]], s[n + 1..]);
  }

  lemma TokenIsBalanced(t: string)
    requires IsToken(t)
    ensures Balanced(t)
  {}

  lemma Rejoin(t: string, w: char, rest: string)
    requires IsCode(t) && IsCode(rest) && IsWhitespace(w) && w != '\n'
    ensures IsCode(t + [w] + rest) && Tokenize(t + [w] + rest) == Tokenize(t) + Tokenize(rest)
  {
    SpaceIsCode(w);
    IsCodeAppend([w], rest);
    IsCodeAppend(t, [w] + rest);
    assert t + [w] + rest == t + ([w] + rest);
    TokensSplit(Outside, [], t, w, rest);
  }

  // ----- the last token -----

  predicate Occurs(s: string, former: string, i: nat) { i + |former| <= |s| && s[i..i + |former|] == former }

  /** The last occurrence of `former` starting at or before `i`. */
  function LastFrom(s: string, former: string, i: nat): Option<nat> {
    if Occurs(s, former, i) then Some(i) else if i == 0 then None else LastFrom(s, former, i - 1)
  }

  /** `replace_last_token`; a missing token, on which the source would stop, cannot arise for a last operand. */
  function ReplaceLastToken(s: string, former: string, latter: string): string {
    var end := |TrimEnd(s)|;
    var start := match LastFrom(TrimEnd(s), former, end) case Some(i) => i case None => end;
    s[..Min(start, |s|)] + latter + s[Min(start + |former|, |s|)..]
  }

  /** Text of a generated line: code, not empty, no trailing space. */
  predicate Neat(s: string) { s != [] && IsCode(s) && NoTrailingSpace(s) }

  lemma CleanIsNeat(s: string)
    ensures Clean(s) <==> Neat(s) && !IsWhitespace(s[0])
  {}

  lemma ParseNeat(s: string)
    requires Neat(s)
    ensures StripReturn(s) == s && CodePart(s) == s
    ensures ParseLine(s) == ParsedLine(s, None, Classify(Tokenize(s)))
  {}

  ghost predicate EndsAfter(s: string, a: string, t: string) {
    && s == a + t && t != [] && IsCode(a) && (a == [] || IsWhitespace(a[|a| - 1]))
    && Tokenize(s) == Tokenize(a) + [t]
  }

  /** The last token of neat text is its end, after a space or at the start. */
  lemma {:induction false} LastToken(s: string) returns (a: string, t: string)
    requires Neat(s)
    ensures EndsAfter(s, a, t)
    decreases |s|
  {
    hide EndsAfter, IsCode, Tokens;
    if IsWhitespace(s[0]) {
      var w, rest := s[0], s[1..];
      assert s == [w] + rest && s[0..] == s;
      RestIsCode(s, 0);
      a, t := LastToken(rest);
      SpaceExtends(w, rest, a, t);
      a := [w] + a;
    } else {
      var first, after := SplitFirst(s);
      if after == [] {
        a, t := [], s;
        assert first == s;
        OnlyTokenEnds(s);
      } else {
        var w, rest := after[0], after[1..];
        RestIsCode(after, 0);
        assert after == [w] + rest && s == first + [w] + rest && after[0..] == after;
        a, t := LastToken(rest);
        TokenExtends(first, w, rest, a, t);
        a := first + [w] + a;
      }
    }
  }

  lemma SplitFirst(s: string) returns (first: string, after: string)
    requires IsCode(s) && s != [] && !IsWhitespace(s[0])
    ensures s == first + after && first != [] && IsCode(first) && IsCode(after) && Tokenize(first) == [first]
    ensures Tokenize(s) == [first] + Tokenize(after)
    ensures after != [] ==> IsWhitespace(after[0])
  {
    var n := FirstToken(Outside, [], s);
    first, after := s[..n], s[n..];
    assert [] + first == first && first + after == s;
    SolidIsOneToken(Outside, [], first);
    IsCodePrefix(first, after);
  }

  lemma OnlyTokenEnds(s: string)
    requires s != [] && Tokenize(s) == [s]
    ensures EndsAfter(s, [], s)
  {}

  lemma SpaceExtends(w: char, rest: string, a: string, t: string)
    requires IsWhitespace(w) && w != '\n' && EndsAfter(rest, a, t)
    ensures EndsAfter([w] + rest, [w] + a, t)
  {
    hide IsCode, Tokens, IsWhitespace;
    SpaceSkipped(w, rest);
    SpaceSkipped(w, a);
    SpaceIsCode(w);
    IsCodeAppend([w], a);
    AppendAssociates([w], a, t);
  }

  lemma TokenExtends(first: string, w: char, rest: string, a: string, t: string)
    requires IsCode(first) && Tokenize(first) == [first] && IsWhitespace(w) && w != '\n' && EndsAfter(rest, a, t)
    requires IsCode(rest)
    ensures EndsAfter(first + [w] + rest, first + [w] + a, t)
  {
    hide IsCode, Tokens, IsWhitespace;
    Rejoin(first, w, rest);
    Rejoin(first, w, a);
    AppendAssociates(first + [w], a, t);
    AppendAssociates([first], Tokenize(a), [t]);
  }

  lemma AppendAssociates<T>(a: seq<T>, b: seq<T>, c: seq<T>)
    ensures a + (b + c) == (a + b) + c
  {}

  lemma SpaceEnds(b: string, w: char)
    requires IsWhitespace(w) && Balanced(b + [w])
    ensures Balanced(b) && Tokenize(b + [w]) == Tokenize(b)
  {
    ScanAppend(Outside, b, [w]);
    assert [w][1..] == [] && Scan(Scan(Outside, b), [w]) == Next(Scan(Outside, b), w);
    TokensSplit(Outside, [], b, w, []);
    assert b + [w] + [] == b + [w];
  }

  lemma AddToken(a: string, t: string)
    requires IsCode(a) && IsPlain(t) && (a == [] || IsWhitespace(a[|a| - 1]))
    ensures Tokenize(a + t) == Tokenize(a) + [t] && Neat(a + t)
  {
    SolidIsOneToken(Outside, [], t);
    TokenEnd(t);
    assert [] + t == t;
    IsCodeAppend(a, t);
    if a == [] {
      assert a + t == t;
    } else {
      var b, w := a[..|a| - 1], a[|a| - 1];
      assert a == b + [w] && a + t == b + [w] + t;
      SpaceEnds(b, w);
      TokensSplit(Outside, [], b, w, t);
    }
  }

  /** Replacing the last token replaces the last token. */
  lemma ReplaceLastTokenTokens(s: string, latter: string)
    requires Neat(s) && IsPlain(latter)
    ensures Tokenize(s) != []
    ensures var tokens := Tokenize(s);
      var u := ReplaceLastToken(s, tokens[|tokens| - 1], latter);
      Neat(u) && Tokenize(u) == tokens[..|tokens| - 1] + [latter] && (Clean(s) ==> Clean(u))
  {
    var a, t := LastToken(s);
    assert TrimEnd(s) == s && s[|s| - |t|..] == t && s[..|a|] == a && s[|s|..] == [];
    OnlyAtEnd(s, t, |s|);
    AddToken(a, latter);
    TokenEnd(latter);
    assert ReplaceLastToken(s, t, latter) == a + latter;
  }

  lemma {:induction false} OnlyAtEnd(s: string, former: string, i: nat)
    requires former != [] && |former| <= |s| && s[|s| - |former|..] == former && |s| - |former| <= i <= |s|
    ensures LastFrom(s, former, i) == Some(|s| - |former|)
  {
    if i > |s| - |former| { OnlyAtEnd(s, former, i - 1); }
  }
}
