/** Compact builds line by line: the text of each generated line, and the program all of them make. */
module CompactText {
  import opened Prelude
  import opened Text
  import opened Literals
  import opened Symbols
  import opened Machine
  import opened Words
  import opened Lines
  import opened Adjusting
  import opened Readable
  import opened Compact
  import opened NameTransfer

  // ----- tokens -----

  function TokensOf(k: LineKind): seq<string> {
    match k
    case Empty => []
    case Label(name) => [name + ":"]
    case Instruction(m, operands) => [m] + operands
  }

  lemma ClassifyKeepsTokens(tokens: seq<string>)
    ensures TokensOf(Classify(tokens)) == tokens
  {
    if tokens != [] {
      var n := |tokens[0]|;
      assert n > 0 && tokens[0][n - 1] == ':' ==> tokens[0] == tokens[0][..n - 1] + ":";
    }
  }

  lemma {:induction false} TokensArePlain(s: string)
    requires IsCode(s)
    ensures forall t :: t in Tokenize(s) ==> IsPlain(t)
    decreases |s|
  {
    if s == [] {
    } else if IsWhitespace(s[0]) {
      assert s == [s[0]] + s[1..] && s[0..] == s;
      RestIsCode(s, 0);
      SpaceSkipped(s[0], s[1..]);
      TokensArePlain(s[1..]);
    } else {
      var first, after := SplitFirst(s);
      TokensAreTokens(Outside, [], first);
      TokensArePlain(after);
    }
  }

  /** Every token of a source line is plain. */
  lemma SourceTokensArePlain(raw: seq<string>, i: nat)
    requires QuotesClosed(raw) && NoNewlines(raw) && i < |raw|
    ensures forall t :: t in TokensOf(ProgramOf(raw)[i]) ==> IsPlain(t)
  {
    CodeIsCode(raw[i]);
    TokensArePlain(CodePart(raw[i]));
    ClassifyKeepsTokens(Tokenize(CodePart(raw[i])));
  }

  /** No word inside a quoted token is a symbol. */
  predicate FreeToken(table: Table, t: string) { IsWord(t) || WordsOf([], t) !! table.Keys }

  predicate QuotedWordsFree(p: seq<LineKind>) {
    forall i :: 0 <= i < |p| ==> forall t :: t in TokensOf(p[i]) ==> FreeToken(Collect(p), t)
  }

  lemma FreeIsSafe(p: seq<LineKind>, r: Substitution, t: string)
    requires FreeToken(Collect(p), t) && r.Keys <= Collect(p).Keys
    ensures SafeToken(r, t)
  {
    CollectEntries(p, t);
    if t in Collect(p) { IdentifierIsWord(t); }
  }

  // ----- short names -----

  predicate IsNameText(s: string) { forall i :: 0 <= i < |s| ==> IsLetter(s[i]) || '0' <= s[i] <= '9' }

  lemma {:induction false} FreshNameText(candidate: string, occupied: set<string>)
    requires IsNameText(candidate)
    ensures IsNameText(FreshName(candidate, occupied))
    decreases |LongEnough(occupied, |candidate|)|
  {
    if candidate in occupied {
      Shrinks(LongEnough(occupied, |candidate|), LongEnough(occupied, |candidate| + 1), candidate);
      FreshNameText("a" + candidate, occupied);
    }
  }

  lemma ShortNameIsIdentifier(index: nat, occupied: set<string>)
    ensures IsIdentifier(ShortName(index, occupied))
  {
    FreshNameText("a" + NatText(index), occupied);
    FreshNameLetter("a" + NatText(index), occupied);
  }

  lemma ShortIsPlain(p: seq<LineKind>, t: string)
    requires IsShort(p, t)
    ensures IsPlain(t) && IsWord(t) && IsIdentifier(t)
  {
    hide IsIdentifier, ShortName, IsPlain, IsWord, PrivateAliases, Collect;
    var name :| name in RenamingOf(p).aliases && RenamingOf(p).aliases[name] == t;
    ShortNameIsIdentifier(Position(PrivateAliases(p), name), Collect(p).Keys);
    IdentifierIsPlain(t);
  }

  lemma {:induction false} FreshNameLetter(candidate: string, occupied: set<string>)
    requires candidate != [] && candidate[0] == 'a'
    ensures FreshName(candidate, occupied) != [] && FreshName(candidate, occupied)[0] == 'a'
    decreases |LongEnough(occupied, |candidate|)|
  {
    if candidate in occupied {
      Shrinks(LongEnough(occupied, |candidate|), LongEnough(occupied, |candidate| + 1), candidate);
      FreshNameLetter("a" + candidate, occupied);
    }
  }

  // ----- substituted lines -----

  ghost predicate LawfulSource(raw: seq<string>) {
    QuotesClosed(raw) && NoNewlines(raw) && Lawful(ProgramOf(raw)) && QuotedWordsFree(ProgramOf(raw))
  }

  lemma OperandIsPlain(raw: seq<string>, t: string)
    requires LawfulSource(raw) && IsOperand(ProgramOf(raw), t)
    ensures IsPlain(t) && FreeToken(Collect(ProgramOf(raw)), t)
  {
    hide Lawful, IsPlain, FreeToken, ParseLine, Balanced;
    var p := ProgramOf(raw);
    var i :| 0 <= i < |p| && p[i].Instruction? && t in p[i].operands;
    SourceTokensArePlain(raw, i);
    assert t in TokensOf(p[i]);
  }

  lemma IdentifierIsPlain(t: string)
    requires IsIdentifier(t)
    ensures IsPlain(t) && IsWord(t)
  {
    IdentifierIsToken(t);
  }

  /** What a token becomes is plain, and free of symbol names inside quotes. */
  lemma SubIsFree(raw: seq<string>, t: string)
    requires LawfulSource(raw) && IsPlain(t) && FreeToken(Collect(ProgramOf(raw)), t)
    ensures var u := Sub(Renames(ProgramOf(raw)), t); IsPlain(u) && FreeToken(Collect(ProgramOf(raw)), u)
  {
    hide IsPlain, IsIdentifier, IsWord, ProgramOf, Renames, IsBoundValue;
    var p := ProgramOf(raw);
    SubCases(p, t);
    DefineResolves(p, t);
    if IsPrivate(Collect(p), t) {
      assert IsShort(p, Sub(Renames(p), t));
      ShortIsPlain(p, Sub(Renames(p), t));
    } else if t in Defines(Collect(p)) {
      FollowIsBoundValue(p, "define", t, HOPS);
      var v := Follow(p, "define", t, HOPS);
      if v != t {
        BoundValues(p, v);
        OperandIsPlain(raw, v);
      }
    }
  }

  function SubKind(r: Substitution, k: LineKind): LineKind {
    if k.Instruction? then k.(operands := SubAll(r, k.operands)) else k
  }

  lemma ClassifySubstituted(r: Substitution, k: LineKind)
    requires k != Empty && Classify(TokensOf(k)) == k
    requires forall t :: t in r ==> IsWord(t) && ':' !in t
    requires k.Instruction? ==> k.mnemonic !in r
    ensures Classify(SubAll(r, TokensOf(k))) == SubKind(r, k)
  {
    if k.Label? {
      var t := k.name + ":";
      assert ':' in t;
      assert SubAll(r, [t]) == [t];
    } else {
      var s := SubAll(r, TokensOf(k));
      assert s[0] == k.mnemonic && s[1..] == SubAll(r, k.operands);
    }
  }

  /** A substituted line still agrees with its text. */
  lemma SubstitutedAgrees(r: Substitution, line: OutputLine, k: LineKind)
    requires Consistent(line) && KindOf(line) == k && k != Empty
    requires Fits(r, Tokenize(line.text)) && (forall t :: t in r ==> IsWord(t) && ':' !in t)
    requires k.Instruction? ==> k.mnemonic !in r
    ensures var u := line.(text := ReplaceTokens(line.text, r), operands := SubAll(r, line.operands));
      u.text != [] && Consistent(u) && KindOf(u) == SubKind(r, k)
  {
    hide IsCode, Tokens, Fits, Replaced, IsWord, Classify;
    ClassifyKeepsTokens(Tokenize(line.text));
    ReplaceTokensTokens(line.text, r);
    ClassifySubstituted(r, k);
    assert SubAll(r, []) == [];
  }

  /** The substitution fits every source line. */
  lemma RenamesFit(raw: seq<string>, i: nat)
    requires LawfulSource(raw) && i < |raw|
    ensures Fits(Renames(ProgramOf(raw)), TokensOf(ProgramOf(raw)[i]))
    ensures ProgramOf(raw)[i].Instruction? ==> ProgramOf(raw)[i].mnemonic !in Renames(ProgramOf(raw))
    ensures forall t :: t in Renames(ProgramOf(raw)) ==> t in Collect(ProgramOf(raw)) && IsWord(t) && ':' !in t
  {
    hide IsPlain, FreeToken, SafeToken, ProgramOf, Renames, IsWord, Lawful;
    var p := ProgramOf(raw);
    var r := Renames(p);
    SourceTokensArePlain(raw, i);
    forall t ensures t in r ==> t in Collect(p) && IsWord(t) && ':' !in t {
      SubCases(p, t);
      if t in Collect(p) { SymbolsAreWords(p, t); }
    }
    forall t | t in TokensOf(p[i]) ensures SafeToken(r, t) && (t in r ==> IsPlain(r[t])) {
      FreeIsSafe(p, r, t);
      SubIsFree(raw, t);
      SubIs(r, t);
    }
    if p[i].Instruction? { LawfulMnemonic(p, i); }
  }

  lemma SubIs(r: Substitution, t: string)
    ensures t in r && IsWord(t) ==> Sub(r, t) == r[t]
  {}

  lemma LawfulMnemonic(p: seq<LineKind>, i: nat)
    requires Lawful(p) && i < |p| && p[i].Instruction?
    ensures p[i].mnemonic !in Collect(p) && Lower(p[i].mnemonic) == p[i].mnemonic
    ensures p[i].mnemonic == "alias" || p[i].mnemonic == "define" ==> IsDirective(p[i])
  {}

  // ----- which lines survive -----

  lemma DefineLineNamesDefine(p: seq<LineKind>, i: nat)
    requires Lawful(p) && i < |p| && IsDefineLine(p[i])
    ensures p[i].operands[0] in Defines(Collect(p))
  {
    DirectiveIsDeclared(p, i, "define", p[i].operands[0]);
    DefineResolves(p, p[i].operands[0]);
  }

  /** Substitution drops exactly the define lines, and rewrites the operands of the others. */
  lemma SubstitutedLine(raw: seq<string>, i: nat, line: OutputLine)
    requires LawfulSource(raw) && i < |raw| && KeptLine(raw, i, line)
    ensures var p := ProgramOf(raw); var u := SubstituteLine(RenamingOf(p), line);
      && p[i] != Empty && (u.None? <==> IsDefineLine(p[i]))
      && (u.Some? ==> Consistent(u.value) && KindOf(u.value) == SubKind(Renames(p), p[i]) && u.value.sourceLine == i)
  {
    hide Lawful, SubstituteLine, Tokens, Fits, IsWord, Classify, Clean, Neat, Renames, IsDefineLine, ParseLine, SubKind,
        ReplaceTokens;
    var p := ProgramOf(raw);
    KeptIsConsistent(raw, i, line);
    TextIsNotEmpty(line);
    RenamesFit(raw, i);
    ClassifyKeepsTokens(Tokenize(line.text));
    SubstitutedAgrees(Renames(p), line, p[i]);
    DropsDefineLine(p, i, line);
  }

  lemma DropsDefineLine(p: seq<LineKind>, i: nat, line: OutputLine)
    requires Lawful(p) && i < |p| && line.mnemonic == MnemonicOf(p[i]) && line.operands == OperandsOf(p[i])
    requires ReplaceTokens(line.text, Renames(p)) != []
    ensures SubstituteLine(RenamingOf(p), line) ==
      if IsDefineLine(p[i]) then None
      else Some(line.(text := ReplaceTokens(line.text, Renames(p)), operands := SubAll(Renames(p), line.operands)))
  {
    hide Lawful, Defines, PrivateAliases, ReplaceTokens, Collect;
    if p[i].Instruction? { LawfulMnemonic(p, i); }
    if IsDefineLine(p[i]) { DefineLineNamesDefine(p, i); }
  }

  lemma TextIsNotEmpty(line: OutputLine)
    requires Clean(line.text)
    ensures KindOf(line) != Empty
  {
    CleanHasTokens(line.text);
  }

  /** A surviving line comes from one source line, substituted. */
  lemma SurvivingLine(raw: seq<string>, g: nat) returns (line: OutputLine)
    requires g < |Surviving(raw)|
    ensures var p := ProgramOf(raw);
      && line.sourceLine < |raw| && KeptLine(raw, line.sourceLine, line)
      && SubstituteLine(RenamingOf(p), line) == Some(Surviving(raw)[g]) &&
          Surviving(raw)[g].sourceLine == line.sourceLine
      && line.sourceLine !in LabelLines(p)
  {
    var p := ProgramOf(raw);
    var f, h := line => SubstituteLine(RenamingOf(p), line), line => RetainLine(LabelLines(p), line);
    hide KeptLines, RenamingOf, LabelLines, ReplaceTokens, SubAll, ProgramOf, FilterMap, KeptLine;
    var j := FilterMapFrom(h, FilterMap(f, KeptLines(raw)), g);
    var i := FilterMapFrom(f, KeptLines(raw), j);
    line := KeptLines(raw)[i];
    KeptLinesAre(raw, i);
  }

  lemma KeptLineIndex(raw: seq<string>, i: nat) returns (h: nat)
    requires i < |raw| && Trim(CodePart(raw[i])) != []
    ensures h < |KeptLines(raw)| && KeptLines(raw)[h].sourceLine == i
  {
    hide Trim, CodePart, KeptLines;
    assert i in KeptOf(KeptLines(raw)) by { if i !in KeptOf(KeptLines(raw)) { DroppedIsBlank(raw, i); } }
    h :| 0 <= h < |KeptLines(raw)| && KeptOf(KeptLines(raw))[h] == i;
  }

  lemma RemovedLineIsLabel(p: seq<LineKind>, i: nat)
    requires Lawful(p) && i in LabelLines(p)
    ensures i < |p| && p[i].Label? && Removable(p, p[i].name)
  {
    var name :| name in RemovableLabels(p) && Collect(p)[name].line == i;
    LabelIsSymbol(p, name);
  }

  lemma LabelIsRemoved(p: seq<LineKind>, i: nat)
    requires Lawful(p) && i < |p| && p[i].Label? && Removable(p, p[i].name)
    ensures i in LabelLines(p)
  {
    SymbolIsDeclared(p, i);
    assert p[i].name in RemovableLabels(p);
  }

  /** Only blank lines, defines and removable labels disappear. */
  lemma MissingIsDropped(raw: seq<string>, i: nat)
    requires LawfulSource(raw) && i < |raw| && i !in KeptOf(Surviving(raw))
    ensures Dropped(ProgramOf(raw), ProgramOf(raw)[i])
  {
    hide Lawful, RenamingOf, LabelLines, SubstituteLine, Removable, KeptLine, FilterMap, ParseLine, QuotedWordsFree;
    var p := ProgramOf(raw);
    if Trim(CodePart(raw[i])) == [] {
      BlankIsEmpty(raw, i);
    } else {
      var k := KeptLineIndex(raw, i);
      var line := KeptLines(raw)[k];
      KeptLinesAre(raw, k);
      SubstitutedLine(raw, i, line);
      if i in LabelLines(p) { RemovedLineIsLabel(p, i); }
      MissingFor(raw, k);
    }
  }

  lemma MissingFor(raw: seq<string>, k: nat)
    requires k < |KeptLines(raw)| && KeptLines(raw)[k].sourceLine !in KeptOf(Surviving(raw))
    ensures var p := ProgramOf(raw);
      SubstituteLine(RenamingOf(p), KeptLines(raw)[k]).None? || KeptLines(raw)[k].sourceLine in LabelLines(p)
  {
    hide KeptLines, RenamingOf, LabelLines, ReplaceTokens, SubAll, ProgramOf, FilterMap;
    var p := ProgramOf(raw);
    var f, h := line => SubstituteLine(RenamingOf(p), line), line => RetainLine(LabelLines(p), line);
    var line := KeptLines(raw)[k];
    if f(line).Some? && line.sourceLine !in LabelLines(p) {
      FilterMapKeeps(f, KeptLines(raw), k);
      var middle := FilterMap(f, KeptLines(raw));
      var j :| 0 <= j < |middle| && middle[j] == f(line).value;
      FilterMapKeeps(h, middle, j);
      KeptOfMember(Surviving(raw), f(line).value);
    }
  }

  lemma KeptOfMember(output: seq<OutputLine>, line: OutputLine)
    requires line in output
    ensures line.sourceLine in KeptOf(output)
  {
    var g :| 0 <= g < |output| && output[g] == line;
    assert KeptOf(output)[g] == line.sourceLine;
  }

  /** What survives is neither blank, nor a define, nor a removable label. */
  lemma SurvivorIsNotDropped(raw: seq<string>, g: nat) returns (i: nat)
    requires LawfulSource(raw) && g < |Surviving(raw)|
    ensures var p := ProgramOf(raw); var u := Surviving(raw)[g];
      i < |raw| && u.sourceLine == i && !Dropped(p, p[i]) && Consistent(u) && KindOf(u) == SubKind(Renames(p), p[i])
  {
    hide Lawful, RenamingOf, LabelLines, SubstituteLine, Removable, KeptLine, FilterMap, ParseLine, QuotedWordsFree,
        Surviving, Consistent, ProgramOf;
    var line := SurvivingLine(raw, g);
    i := line.sourceLine;
    SubstitutedLine(raw, i, line);
    var p := ProgramOf(raw);
    if p[i].Label? && Removable(p, p[i].name) { LabelIsRemoved(p, i); }
  }
}
