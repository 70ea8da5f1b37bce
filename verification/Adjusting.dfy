/** What branch adjustment means for the running program. */
module Adjusting {
  import opened Prelude
  import opened Text
  import opened Literals
  import opened Symbols
  import opened Machine
  import opened Relinking
  import opened Carrying
  import opened Words
  import opened Lines

  function KindOf(line: OutputLine): LineKind { Classify(Tokenize(line.text)) }

  function KindsOf(output: seq<OutputLine>): (r: seq<LineKind>)
    ensures |r| == |output|
  {
    seq(|output|, i requires 0 <= i < |output| => KindOf(output[i]))
  }

  /** The parsed fields of a line agree with its text. */
  predicate Consistent(line: OutputLine) {
    Neat(line.text) && line.mnemonic == MnemonicOf(KindOf(line)) && line.operands == OperandsOf(KindOf(line))
  }

  function Texts(output: seq<OutputLine>): (r: seq<string>)
    ensures |r| == |output|
  {
    seq(|output|, i requires 0 <= i < |output| => output[i].text)
  }

  /** The generated source. */
  function CodeOf(output: seq<OutputLine>): string { Unlines(Texts(output)) }

  /** Reading the generated code back gives the generated lines. */
  lemma CodeLines(output: seq<OutputLine>)
    requires forall g :: 0 <= g < |output| ==> Neat(output[g].text)
    ensures SourceLines(CodeOf(output)) == Texts(output)
    ensures Kinds(ParseLines(SourceLines(CodeOf(output)))) == KindsOf(output)
  {
    hide Unlines, Pieces, Neat, StripReturn, ParseLine;
    var texts := Texts(output);
    forall g | 0 <= g < |texts|
      ensures '\n' !in texts[g] && StripReturn(texts[g]) == texts[g] && ParseLine(texts[g]).kind == KindOf(output[g]) {
      NeatReads(output[g]);
    }
    PiecesOfUnlines(texts);
  }

  lemma NeatReads(line: OutputLine)
    requires Neat(line.text)
    ensures '\n' !in line.text && StripReturn(line.text) == line.text && ParseLine(line.text).kind == KindOf(line)
  {
    ParseNeat(line.text);
  }

  /** Printing a new target leaves the fields in agreement, and changes only the last operand. */
  lemma RetargetedKind(line: OutputLine, target: int)
    requires Consistent(line) && line.operands != []
    ensures var latter := Retargeted(line, Some(target));
      && Consistent(latter) &&
          KindOf(latter) == KindOf(line).(operands := line.operands[..|line.operands| - 1] + [IntText(target)])
      && latter.sourceLine == line.sourceLine && (Clean(line.text) ==> Clean(latter.text))
  {
    hide Tokens, Clean, IntText, ReplaceLastToken, Neat;
    IntTextIsToken(target);
    var tokens := Tokenize(line.text);
    ReplaceLastTokenTokens(line.text, IntText(target));
    assert tokens[1..][|tokens| - 2] == tokens[|tokens| - 1];
    assert (tokens[..|tokens| - 1] + [IntText(target)])[1..] == tokens[1..][..|tokens| - 2] + [IntText(target)];
  }

  // ----- targets -----

  ghost predicate LiteralsAreWords(q: seq<LineKind>) {
    forall t :: ParseInteger(t).Some? ==> ReadQuantity(q, t) == Word(t)
  }

  function NewToken(token: string, target: Option<int>): string {
    match target case None => token case Some(v) => IntText(v)
  }

  ghost predicate AdjustsFor(x: Context, p: seq<LineKind>, kept: seq<nat>) {
    && Increasing(kept, |p|) && x.table == Collect(p) && x.lineMap == LineMap(|p|, kept)
    && (x.topologyChanged <==> |kept| != |p|)
  }

  /** A literal target is rewritten so that it names the rank of the line it named. */
  lemma LiteralIsRelinked(n: nat, kept: seq<nat>, g: nat, sourceLine: nat, relative: bool, v: int)
    requires Increasing(kept, n) && LiteralAdjustment(LineMap(n, kept), g, sourceLine, relative, v).Ok?
    ensures var d := (if relative then sourceLine else 0) + v;
      var adjusted := LiteralAdjustment(LineMap(n, kept), g, sourceLine, relative, v).value;
      0 <= d < n && (if relative then g else 0) + (if adjusted.Some? then adjusted.value else v) == Rank(kept, n, d)
  {
    var d := (if relative then sourceLine else 0) + v;
    if 0 <= d < n { TranslateIsBelow(n, kept, d); }
  }

  /** What adjustment does with a branch: nothing, its literal rewritten, or nothing because no line is gone. */
  lemma AdjustmentOf(x: Context, g: nat, line: OutputLine, m: string, given: string)
    requires line.mnemonic == Some(m) && IsBranch(m) && line.sourceLine !in x.relabelled && Adjustment(x, g, line).Ok?
    requires line.operands != [] && given == line.operands[|line.operands| - 1]
    ensures if !IsRelative(m) && (m in UNTRANSLATED || IsLabelSymbol(x.table, given)) then
        Adjustment(x, g, line) == Ok(None)
      else if ParseInteger(given).Some? then
        Adjustment(x, g, line)
          == LiteralAdjustment(x.lineMap, g, line.sourceLine, IsRelative(m), ParseInteger(given).value)
      else !x.topologyChanged && Adjustment(x, g, line) == Ok(None)
  {
    hide IsLabelSymbol, ParseInteger, LiteralAdjustment, IsRelative, IsAbsoluteBranch;
    RolesOf(m);
    RelativeIsNotAbsolute(m);
  }

  /** A branch to a literal, left alone or rewritten, goes where its line has gone. */
  lemma LiteralBranch(p: seq<LineKind>, q: seq<LineKind>, kept: seq<nat>, g: nat, m: string, token: string,
                      given: string,
                      target: Option<int>)
    requires Increasing(kept, |p|) && g < |kept| && LiteralsAreWords(q) && ParseInteger(given).Some?
    requires ReadQuantity(q, given) == MovedOperand(kept, |p|, ReadQuantity(p, token))
    requires IsRelative(m) || (m !in UNTRANSLATED && !IsLabelSymbol(Collect(p), given))
    requires IsLabelSymbol(Collect(p), token) ==> given == token
    requires LiteralAdjustment(LineMap(|p|, kept), g, kept[g], IsRelative(m), ParseInteger(given).value) == Ok(target)
    ensures CarriedTarget(p, q, kept, g, m, token, NewToken(given, target))
  {
    hide IsLabelSymbol, MovedOperand, Rank, ReadQuantity, ParseInteger, IntText, CarriedTarget, LiteralAdjustment,
        IsRelative, LineMap, LiteralsAreWords, Collect;
    LiteralIsRelinked(|p|, kept, g, kept[g], IsRelative(m), ParseInteger(given).value);
    if target.Some? { IntTextParses(target.value); }
    LiteralCarried(p, q, kept, g, m, token, given, NewToken(given, target));
  }

  /**
   Every branch of an accepted build is carried over: `token` is the source operand, `given` what adjustment was
   given.
   */
  lemma AdjustedTarget(x: Context, p: seq<LineKind>, q: seq<LineKind>, kept: seq<nat>, g: nat, line: OutputLine,
                       token: string)
    requires AdjustsFor(x, p, kept) && g < |kept| && line.sourceLine == kept[g] && line.sourceLine !in x.relabelled
    requires line.mnemonic.Some? && IsBranch(line.mnemonic.value) && line.operands != [] && Adjustment(x, g, line).Ok?
    requires LiteralsAreWords(q)
    requires var given := line.operands[|line.operands| - 1];
      && ReadQuantity(q, given) == MovedOperand(kept, |p|, ReadQuantity(p, token))
      && (IsLabelSymbol(x.table, token) ==> given == token)
      && (IsLabelSymbol(x.table, given) && given != token ==> ReadQuantity(p, token).Line?)
    ensures CarriedTarget(p, q, kept, g, line.mnemonic.value, token,
      NewToken(line.operands[|line.operands| - 1], Adjustment(x, g, line).value))
  {
    hide IsLabelSymbol, MovedOperand, Rank, ReadQuantity, ParseInteger, IntText, CarriedTarget, LiteralAdjustment,
        Adjustment, IsRelative, IsAbsoluteBranch, IsBranch, LineMap, LiteralsAreWords;
    var m, given := line.mnemonic.value, line.operands[|line.operands| - 1];
    var target := Adjustment(x, g, line).value;
    AdjustmentOf(x, g, line, m, given);
    if !IsRelative(m) && (m in UNTRANSLATED || IsLabelSymbol(x.table, given)) {
      assert target == None;
      LeftAlone(p, q, kept, g, m, token, given);
    } else if ParseInteger(given).Some? {
      LiteralBranch(p, q, kept, g, m, token, given, target);
    } else {
      assert |kept| == |p| && target == None;
      NothingMoved(p, q, kept, g, m, token, given);
    }
  }

  lemma RelativeIsNotAbsolute(m: string)
    ensures IsRelative(m) ==> !IsAbsoluteBranch(m)
  {
    assert m == "jr" ==> m[..1] == "j";
    assert IsRelative(m) && m != "jr" ==> m[..2][0] == 'b' && m[0] == 'b';
  }

  lemma RolesOf(m: string)
    requires IsBranch(m)
    ensures IsRelative(m) || IsAbsoluteBranch(m) || m in UNTRANSLATED
    ensures m in UNTRANSLATED ==> !IsRelative(m) && !IsAbsoluteBranch(m)
  {
    if m in UNTRANSLATED { UntranslatedIsAbsolute(m); }
  }

  lemma LeftAlone(p: seq<LineKind>, q: seq<LineKind>, kept: seq<nat>, g: nat, m: string, token: string, given: string)
    requires g < |kept| && !IsRelative(m) && (m in UNTRANSLATED || IsLabelSymbol(Collect(p), given))
    requires ReadQuantity(q, given) == MovedOperand(kept, |p|, ReadQuantity(p, token))
    requires m !in UNTRANSLATED && given != token ==> ReadQuantity(p, token).Line?
    ensures CarriedTarget(p, q, kept, g, m, token, given)
  {
    hide IsLabelSymbol, Rank, ReadQuantity, IsRelative;
  }

  lemma LiteralCarried(p: seq<LineKind>, q: seq<LineKind>, kept: seq<nat>, g: nat, m: string, token: string,
                       given: string, t: string)
    requires g < |kept| && LiteralsAreWords(q) && ParseInteger(given).Some? && ParseInteger(t).Some?
    requires ReadQuantity(q, given) == MovedOperand(kept, |p|, ReadQuantity(p, token))
    requires IsRelative(m) || (m !in UNTRANSLATED && !IsLabelSymbol(Collect(p), given))
    requires IsLabelSymbol(Collect(p), token) ==> given == token
    requires var d := (if IsRelative(m) then kept[g] else 0) + ParseInteger(given).value;
      0 <= d && (if IsRelative(m) then g else 0) + ParseInteger(t).value == Rank(kept, |p|, d)
    ensures CarriedTarget(p, q, kept, g, m, token, t)
  {
    hide IsLabelSymbol, Rank, ReadQuantity, ParseInteger, IsRelative;
    assert ReadQuantity(p, token) == Word(given);
    assert !Untouched(p, m, token) by { if m in UNTRANSLATED { UntranslatedIsAbsolute(m); } }
  }

  lemma NothingMoved(p: seq<LineKind>, q: seq<LineKind>, kept: seq<nat>, g: nat, m: string, token: string,
                     given: string)
    requires Increasing(kept, |p|) && g < |kept| == |p|
    requires ReadQuantity(q, given) == MovedOperand(kept, |p|, ReadQuantity(p, token))
    ensures CarriedTarget(p, q, kept, g, m, token, given)
  {
    hide IsLabelSymbol, Rank, ReadQuantity, ParseInteger, IsRelative;
    forall t: nat ensures Rank(kept, |p|, t) == t && (t < |p| ==> kept[t] == t) { NothingDeleted(kept, |p|, t); }
    NothingMovesOperand(kept, |p|, ReadQuantity(p, token));
  }
}
