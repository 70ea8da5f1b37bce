/** Inputs at which the conditions on the source are needed. */
module Necessity {
  import opened Prelude
  import opened Text
  import opened Literals
  import opened Registers
  import opened Symbols
  import opened Machine
  import opened Relinking
  import opened Environment
  import opened Carrying
  import opened Words
  import opened Lines
  import opened Adjusting
  import opened Readable
  import opened Compact
  import opened NameTransfer
  import opened CompactText
  import opened CompactRuns
  import opened Transparency

  // ----- lines of words -----

  function Sentence(words: seq<string>): string {
    if words == [] then []
    else if |words| == 1 then words[0]
    else Sentence(words[..|words| - 1]) + [' '] + words[|words| - 1]
  }

  predicate Alphanumeric(t: string) { t != [] && forall i :: 0 <= i < |t| ==> IsLetter(t[i]) || '0' <= t[i] <= '9' }

  lemma WordTokens(t: string)
    requires Alphanumeric(t)
    ensures IsCode(t) && Tokenize(t) == [t]
  {
    IdentifierIsToken(t);
    SolidIsOneToken(Outside, [], t);
    assert [] + t == t;
  }

  lemma {:induction false} SentenceIsCode(words: seq<string>)
    requires words != [] && forall i :: 0 <= i < |words| ==> Alphanumeric(words[i])
    ensures var s := Sentence(words); IsCode(s) && Tokenize(s) == words && s != []
    ensures var s := Sentence(words); !IsWhitespace(s[0]) && !IsWhitespace(s[|s| - 1])
  {
    hide IsCode, Tokens;
    var n := |words| - 1;
    WordTokens(words[n]);
    if n == 0 {
      assert words == [words[0]];
    } else {
      SentenceIsCode(words[..n]);
      Rejoin(Sentence(words[..n]), ' ', words[n]);
      var s := Sentence(words);
      assert s[0] == Sentence(words[..n])[0] && s[|s| - 1] == words[n][|words[n]| - 1];
      assert words == words[..n] + [words[n]];
    }
  }

  lemma SentenceTokens(words: seq<string>)
    requires words != [] && forall i :: 0 <= i < |words| ==> Alphanumeric(words[i])
    ensures Clean(Sentence(words)) && Tokenize(Sentence(words)) == words
  {
    hide IsCode, Tokens, IsWhitespace, Alphanumeric;
    SentenceIsCode(words);
    CleanIsNeat(Sentence(words));
  }

  lemma CleanReads(s: string)
    requires Clean(s)
    ensures Balanced(CodePart(s)) && '\n' !in s && ParseLine(s).kind == Classify(Tokenize(s))
  {
    CleanIsNeat(s);
    ParseNeat(s);
  }

  // ----- one line of code -----

  /** A line that the compiler deletes and the machine passes over. */
  predicate CodeFree(s: string) {
    OutputOf(0, s) == [] && ParseLine(s).kind == Empty && Balanced(CodePart(s)) && '\n' !in s
  }

  function LineOfCode(s: string, k: LineKind): OutputLine { OutputLine(1, s, MnemonicOf(k), OperandsOf(k)) }

  /** The readable build of a line without code and a line of code keeps the second as it is. */
  lemma SecondLineBuilds(c: string, s: string, k: LineKind) returns (lines: seq<OutputLine>)
    requires CodeFree(c) && Clean(s) && Classify(Tokenize(s)) == k
    requires IsOperation(k) && Declared(k, 1) == None
    requires !IsAbsoluteBranch(Lower(k.mnemonic)) && !IsRelative(Lower(k.mnemonic))
    ensures BuiltFrom([c, s], lines) && KeptOf(lines) == [1] && ProgramOf([c, s]) == [Empty, k] && Rebuilt(lines) == [k]
  {
    hide Clean, Tokens, KeptLines, ProgramOf, NamesAreIdentifiers, LineMap, QuotesClosed, NoNewlines, CodeFree,
        IsAbsoluteBranch, IsRelative, IsOperation, Collect, Declared;
    var raw := [c, s];
    OperationIsInstruction(k);
    lines := [LineOfCode(s, k)];
    SecondLineKept(c, s, k);
    OneOperation(k);
    KeptLinesInRange(raw);
    var x := ContextOf(ProgramOf(raw), lines, {});
    NothingAdjusted(x, lines, 1);
    assert lines[..1] == lines;
    BuildReads(raw, lines);
    assert KindsOf(lines) == [k];
  }

  lemma SecondLineKept(c: string, s: string, k: LineKind)
    requires CodeFree(c) && Clean(s) && Classify(Tokenize(s)) == k
    ensures KeptLines([c, s]) == [LineOfCode(s, k)] && ProgramOf([c, s]) == [Empty, k]
    ensures QuotesClosed([c, s]) && NoNewlines([c, s])
  {
    hide Clean, Tokens, OutputOf, Neat, CodePart, Balanced, Classify, ParseLine;
    CleanReads(s);
    CleanIsNeat(s);
    CleanOutput(1, LineOfCode(s, k));
    assert [c, s][..1] == [c] && [c][..0] == [];
    assert KeptLines([c]) == [];
  }

  lemma OneOperation(k: LineKind)
    requires Declared(k, 1) == None
    ensures NamesAreIdentifiers([Empty, k])
  {}

  /** Nothing is bound, so every operand is read as it stands. */
  lemma NothingBound(p: seq<LineKind>, t: string)
    requires forall i :: 0 <= i < |p| ==> p[i] == Empty || IsOperation(p[i])
    ensures Follow(p, "alias", t, HOPS) == t && Resolve(p, t) == Word(t)
  {
    hide Follow;
    NoBinding(p, "alias", t);
    NoBinding(p, "define", t);
    LabelLineIsLast(p, t);
    FollowNothing(p, "alias", t);
    FollowNothing(p, "define", t);
  }

  lemma FirstLineGone()
    ensures Increasing([1], 2) && Rank([1], 2, 1) == 0 && Rank([1], 2, 2) == 1
  {
    RankOfKept([1], 2, 0);
  }

  // ----- an unknown branch -----

  /** A blank line, then `bdse d0 1`: a branch that the machine takes and the compiler does not know. */
  const BLANK_THEN_BRANCH: seq<string> := ["", Sentence(["bdse", "d0", "1"])]

  lemma TextOfOne()
    ensures ParseInteger("1") == Some(1)
  {
    IntTextParses(1);
    assert IntText(1) == "1";
  }

  lemma BlankIsCodeFree()
    ensures CodeFree("")
  {
    assert CodePart("") == "" && TrimStart("") == "" && TrimEnd("") == "";
  }

  /** An accepted build that is not faithful: the literal target of an unknown branch does not follow its line. */
  lemma UntranslatedBranchGoesAstray() returns (lines: seq<OutputLine>)
    ensures BuiltFrom(BLANK_THEN_BRANCH, lines) && !LineBlind(ProgramOf(BLANK_THEN_BRANCH), KeptOf(lines))
  {
    var k := Instruction("bdse", ["d0", "1"]);
    UnknownIsOperation(k);
    BlankIsCodeFree();
    hide Clean, Tokens, BuiltFrom, LineBlind, Sentence, CodeFree, ProgramOf;
    SentenceTokens(["bdse", "d0", "1"]);
    lines := SecondLineBuilds("", Sentence(["bdse", "d0", "1"]), k);
    BranchIsNotBlind();
  }

  lemma UnknownIsOperation(k: LineKind)
    requires k == Instruction("bdse", ["d0", "1"])
    ensures Classify(["bdse", "d0", "1"]) == k && Lower("bdse") == "bdse" && IsOperation(k) && Declared(k, 1) == None
    ensures !IsAbsoluteBranch("bdse") && !IsRelative("bdse")
    ensures Alphanumeric("bdse") && Alphanumeric("d0") && Alphanumeric("1")
  {
    UntranslatedIsAbsolute("bdse");
  }

  lemma BranchIsNotBlind()
    ensures !LineBlind([Empty, Instruction("bdse", ["d0", "1"])], [1])
  {
    var p := [Empty, Instruction("bdse", ["d0", "1"])];
    assert Lower("bdse") == "bdse";
    UntranslatedIsAbsolute("bdse");
    TextOfOne();
    LiteralIsWord(p, "1");
    FirstLineGone();
    assert !BlindTarget(p, [1], "bdse", "1");
    assert IsOperation(p[1]) && !BlindOperation(p, [1], 1);
  }

  // ----- a load of the line number -----

  /** A comment, then `l r0 db LineNumber`: the program loads the line it is at, and the comment is deleted. */
  const COMMENT_THEN_LOAD: seq<string> := ["# c", Sentence(["l", "r0", "db", LINE_NUMBER])]

  const LOAD: LineKind := Instruction("l", ["r0", "db", LINE_NUMBER])

  lemma CommentIsCodeFree()
    ensures CodeFree("# c")
  {
    assert CommentStart(Outside, "# c") == Some(0) && "# c"[..0] == [];
    assert TrimStart("") == "" && TrimEnd("") == "";
  }

  lemma LoadIsOperation()
    ensures Classify(["l", "r0", "db", LINE_NUMBER]) == LOAD && Lower("l") == "l" && IsOperation(LOAD)
    ensures Declared(LOAD, 1) == None
    ensures !IsAbsoluteBranch("l") && !IsRelative("l") && !IsBranch("l")
    ensures Alphanumeric("l") && Alphanumeric("r0") && Alphanumeric("db") && Alphanumeric(LINE_NUMBER)
  {
    KnownIsBranch("l");
  }

  lemma LineNumberIsIdentifier()
    ensures IsIdentifier(LINE_NUMBER) && LINE_NUMBER[0] == 'L'
  {}

  lemma CapitalIsNoNumber(t: string)
    requires IsIdentifier(t) && t != [] && t[0] == 'L'
    ensures ParseInteger(t) == None && !IsRegister(t)
  {
    hide IsIdentifier;
    IdentifiersAreNotIntegers(t);
    assert t[..1] == [t[0]];
  }

  /** Whether or not the language knows the name, the load may read the field. */
  lemma LoadReadsLine(p: seq<LineKind>)
    requires p == [Empty, LOAD] || p == [LOAD]
    ensures MayReadLine("l", ReadAll(p, "l", DataOperands(LOAD)))
  {
    hide Follow, IsLogicName, Resolve, DirectRegister, IsIndirect, ParseInteger;
    LoadIsOperation();
    NothingBound(p, LINE_NUMBER);
    LineNumberIsIdentifier();
    CapitalIsNoNumber(LINE_NUMBER);
  }

  lemma LoadShows(p: seq<LineKind>, i: nat)
    requires (p == [Empty, LOAD] && i == 1) || (p == [LOAD] && i == 0)
    ensures Step(p, Probe(0), StartAt(0, 0)).state.line == Some(i)
  {
    LoadIsOperation();
    LoadReadsLine(p);
    hide MayReadLine, ReadAll, IsOperation, IsBranch, Lower, NamesReturnAddress;
    assert NextOperation(p, 0) == Some(i);
  }

  lemma LoadIsNotBlind()
    ensures !LineBlind([Empty, LOAD], [1])
  {
    hide MayReadLine, ReadAll, IsOperation, IsBranch, Lower, BlindData, Rank;
    LoadIsOperation();
    LoadReadsLine([Empty, LOAD]);
    FirstLineGone();
    assert !BlindOperation([Empty, LOAD], [1], 1);
  }

  /** An accepted build that is not faithful: the source loads line 1, its build, the comment gone, line 0. */
  lemma LineNumberMoves() returns (lines: seq<OutputLine>)
    ensures BuiltFrom(COMMENT_THEN_LOAD, lines) && !LineBlind(ProgramOf(COMMENT_THEN_LOAD), KeptOf(lines))
    ensures Step(ProgramOf(COMMENT_THEN_LOAD), Probe(0), StartAt(0, 0)).state.line == Some(1)
    ensures Step(Rebuilt(lines), Probe(0), StartAt(0, 0)).state.line == Some(0)
  {
    LoadIsOperation();
    CommentIsCodeFree();
    hide Clean, Tokens, BuiltFrom, LineBlind, Sentence, CodeFree, ProgramOf, Step;
    SentenceTokens(["l", "r0", "db", LINE_NUMBER]);
    lines := SecondLineBuilds("# c", Sentence(["l", "r0", "db", LINE_NUMBER]), LOAD);
    LoadIsNotBlind();
    LoadShows([Empty, LOAD], 1);
    LoadShows([LOAD], 0);
  }

  // ----- the conditions can be met -----

  const LABELLED: seq<LineKind> := [Label("x"), Instruction("j", ["x"])]

  lemma LabelledFollows(directive: string, t: string)
    ensures Follow(LABELLED, directive, t, HOPS) == t && Binding(LABELLED, directive, t) == None
  {
    NoBinding(LABELLED, directive, t);
  }

  lemma LabelledWellNamed()
    ensures WellNamed(LABELLED)
  {
    hide Collect, Follow, Lower, FindsCycle, Binding;
    LabelTable();
    LowerJump();
    forall directive, t ensures Binding(LABELLED, directive, Follow(LABELLED, directive, t, HOPS)) == None {
      LabelledFollows(directive, t);
    }
    assert IsIdentifier("x");
  }

  lemma LabelledIsTransparent()
    ensures Transparent(LABELLED)
  {
    hide Collect, Follow, IsRegister, Binding, Removable;
    LabelTable();
    LowerJump();
    assert IsJump("j");
    LabelledFollows("alias", "x");
    LabelledFollows("define", "x");
  }

  /** A compact source with a removable label that meets every condition. */
  lemma LawfulLabelExists()
    ensures Lawful(LABELLED) && Transparent(LABELLED) && Removable(LABELLED, "x")
  {
    hide Collect, Defines, PrivateAliases, WellNamed, Transparent, Lower;
    LabelTable();
    LabelledWellNamed();
    LabelledIsTransparent();
    assert ShortNames([], Collect(LABELLED).Keys) == map[];
  }

  lemma LabelTable()
    ensures var table := Collect(LABELLED);
      table == map["x" := Symbol(LabelName, None, 0)] && Defines(table) == map[] && !FindsCycle(table, "x", {})
    ensures PrivateAliases(LABELLED) == [] && !IsRegister("x")
  {
    var p := LABELLED;
    assert p[..1] == [Label("x")] && [Label("x")][..0] == [];
    assert Collect([Label("x")]) == map["x" := Symbol(LabelName, None, 0)];
    assert RawDefines(Collect(p)) == map[];
    assert PrivateAliases(p[..1]) == [];
    assert "x"[..1][0] == 'x';
  }

  lemma LowerJump()
    ensures Lower("j") == "j"
  {}

  // ----- a define named like a register -----

  /** `define r0 5`, then `move r1 r0`: the machine copies register 0, the compact build stores 5. */
  const RESERVED_DEFINE: seq<string> := [Sentence(["define", "r0", "5"]), Sentence(["move", "r1", "r0"])]

  const DEFINE: LineKind := Instruction("define", ["r0", "5"])
  const MOVE: LineKind := Instruction("move", ["r1", "r0"])

  lemma TwoLines(s: string, t: string)
    requires Clean(s) && Clean(t)
    ensures ProgramOf([s, t]) == [Classify(Tokenize(s)), Classify(Tokenize(t))]
    ensures QuotesClosed([s, t]) && NoNewlines([s, t])
  {
    hide Clean, Tokens, CodePart, Balanced, Classify, ParseLine;
    CleanReads(s);
    CleanReads(t);
  }

  lemma ReservedReads()
    ensures ProgramOf(RESERVED_DEFINE) == [DEFINE, MOVE] && QuotesClosed(RESERVED_DEFINE) && NoNewlines(RESERVED_DEFINE)
  {
    hide Clean, Tokenize, Sentence, Classify, ProgramOf, QuotesClosed, NoNewlines, Alphanumeric;
    ReservedWords();
    SentenceTokens(["define", "r0", "5"]);
    SentenceTokens(["move", "r1", "r0"]);
    TwoLines(Sentence(["define", "r0", "5"]), Sentence(["move", "r1", "r0"]));
    ReservedKinds();
  }

  lemma ReservedWords()
    ensures Alphanumeric("define") && Alphanumeric("move") && Alphanumeric("r0") && Alphanumeric("r1")
    ensures Alphanumeric("5")
  {}

  lemma AlphanumericIsWord(t: string)
    requires Alphanumeric(t)
    ensures IsWord(t)
  {}

  lemma ReservedKinds()
    ensures Classify(["define", "r0", "5"]) == DEFINE && Classify(["move", "r1", "r0"]) == MOVE
  {}

  lemma ReservedTable()
    ensures Collect([DEFINE, MOVE]) == map["r0" := Symbol(DefineName, Some("5"), 0)]
    ensures Defines(Collect([DEFINE, MOVE])) == map["r0" := "5"] && PrivateAliases([DEFINE, MOVE]) == []
  {
    var p := [DEFINE, MOVE];
    assert p[..1] == [DEFINE] && p[..1][..0] == [];
    assert IsIdentifier("r0");
    assert Collect(p[..1]) == map["r0" := Symbol(DefineName, Some("5"), 0)];
    assert PrivateAliases(p[..1]) == [];
    assert RawDefines(Collect(p)) == map["r0" := "5"];
    assert ResolveDefine(RawDefines(Collect(p)), "r0") == Some("5");
  }

  lemma ReservedBinding(directive: string, t: string)
    ensures Binding([DEFINE, MOVE], directive, t) == if directive == "define" && t == "r0" then Some("5") else None
  {
    var p := [DEFINE, MOVE];
    assert p[..1] == [DEFINE] && p[..1][..0] == [];
    assert Binding(p[..1], directive, t) == if directive == "define" && t == "r0" then Some("5") else None;
  }

  lemma ReservedFollows(directive: string, t: string)
    ensures Follow([DEFINE, MOVE], directive, t, HOPS) == if directive == "define" && t == "r0" then "5" else t
  {
    hide Binding;
    ReservedBinding(directive, t);
    ReservedBinding(directive, "5");
  }

  lemma ReservedWellNamed()
    ensures WellNamed([DEFINE, MOVE])
  {
    hide Follow, Collect, Binding, FindsCycle;
    var p := [DEFINE, MOVE];
    ReservedTable();
    assert NamesAreIdentifiers(p) by { assert IsIdentifier("r0"); }
    assert Acyclic(Collect(p)) by { ReservedCycle(); }
    assert Unique(p);
    assert PlainMnemonics(p) by { ReservedMnemonics(); }
    forall directive, t ensures Binding(p, directive, Follow(p, directive, t, HOPS)) == None {
      ReservedFollows(directive, t);
      ReservedBinding(directive, t);
      ReservedBinding(directive, "5");
    }
  }

  lemma ReservedCycle()
    ensures !FindsCycle(map["r0" := Symbol(DefineName, Some("5"), 0)], "r0", {})
  {}

  lemma ReservedMnemonics()
    ensures Lower("define") == "define" && Lower("move") == "move" && "define" != "r0" && "move" != "r0"
  {}

  lemma ReservedIsLawful()
    ensures Lawful([DEFINE, MOVE]) && QuotedWordsFree([DEFINE, MOVE])
  {
    hide WellNamed, Collect, Defines, PrivateAliases, IsWord;
    var p := [DEFINE, MOVE];
    ReservedWellNamed();
    ReservedTable();
    assert ShortNames([], Collect(p).Keys) == map[];
    ReservedWords();
    forall t | t in ["define", "r0", "5", "move", "r1"] ensures IsWord(t) { AlphanumericIsWord(t); }
  }

  /** A program without branches has a compact build. */
  lemma StraightLineBuilds(raw: seq<string>)
    requires LawfulSource(raw)
    requires forall i ::
        0 <= i < |raw| && ProgramOf(raw)[i].Instruction? ==> !IsBranch(Lower(ProgramOf(raw)[i].mnemonic))
    ensures CompactLines(raw).Ok?
  {
    hide LawfulSource, ProgramOf, Surviving, Dropped, Neat, Tokens, LineMap, RemovableLabels, Collect, RelabelUpTo,
        AdjustUpTo, RelabelledLines, Adjustment, RelabelLine;
    var p, before := ProgramOf(raw), Surviving(raw);
    SurvivingInRange(raw);
    RemovableAreSymbols(p);
    var removable, m := RemovableLabels(p), LineMap(|p|, KeptOf(before));
    forall g | 0 <= g < |before|
      ensures RelabelLine(Collect(p), removable, m, before[g]) == Ok(before[g])
      ensures forall x :: Adjustment(x, g, before[g]) == Ok(None)
    {
      var i := SurvivorIsNotDropped(raw, g);
      NoBranchStays(Collect(p), removable, m, before[g]);
    }
    NothingRelabelled(Collect(p), removable, m, before, |before|);
    assert before[..|before|] == before;
    NothingAdjusted(ContextOf(p, before, RelabelledLines(removable, before)), before, |before|);
  }

  lemma NoBranchStays(table: Table, removable: set<string>, m: seq<Option<nat>>, line: OutputLine)
    requires removable <= table.Keys && (line.mnemonic.Some? ==> !IsBranch(line.mnemonic.value))
    ensures RelabelLine(table, removable, m, line) == Ok(line)
    ensures forall x, g :: Adjustment(x, g, line) == Ok(None)
  {
    if line.mnemonic.Some? { KnownIsBranch(line.mnemonic.value); }
  }

  lemma KnownIsBranch(m: string)
    ensures IsRelative(m) || IsAbsoluteBranch(m) ==> IsBranch(m)
  {
    assert StartsWith(m, "br") ==> m[..2][0] == 'b' && m[..1] == [m[0]];
  }

  lemma {:induction false} NothingRelabelled(table: Table, removable: set<string>, m: seq<Option<nat>>,
                          output: seq<OutputLine>, k: nat)
    requires removable <= table.Keys && k <= |output|
    requires forall g :: 0 <= g < k ==> RelabelLine(table, removable, m, output[g]) == Ok(output[g])
    ensures RelabelUpTo(table, removable, m, output, k) == Ok(output[..k])
  {
    hide RelabelLine;
    if k > 0 {
      NothingRelabelled(table, removable, m, output, k - 1);
      assert output[..k] == output[..k - 1] + [output[k - 1]];
    }
  }

  lemma ReservedIsRead()
    ensures RoleOf("move", 0) == Quantity && RoleOf("move", 1) == Quantity
    ensures DirectRegister("r0") == Some(0) && DirectRegister("r1") == Some(1)
  {
    assert "move"[0] == 'm' && "sdns"[0] == 's' && "sdse"[0] == 's' && "bdns"[0] == 'b' && "bdse"[0] == 'b';
    assert "r0"[1..] == "0" && "r1"[1..] == "1" && "0"[..0] == [] && "1"[..0] == [];
    assert Ordinal("0") == Some(0) && Ordinal("1") == Some(1);
  }

  lemma ReservedIsBlind(kept: seq<nat>)
    ensures LineBlind([DEFINE, MOVE], kept)
  {
    hide Follow, RoleOf, DirectRegister;
    var p := [DEFINE, MOVE];
    ReservedIsRead();
    ReservedFollows("alias", "r0");
    ReservedFollows("alias", "r1");
    assert Lower("move") == "move" && !IsBranch("move") by { assert "move"[..1] == "m"; }
    assert FieldOperand("move") == None by { assert "move"[0] == 'm'; }
    assert ReadAll(p, "move", ["r1", "r0"]) == [Name("r1"), Name("r0")];
    assert MovedOperands(kept, 2, [Name("r1"), Name("r0")]) == [Name("r1"), Name("r0")];
  }

  /** Everything else holds of it, yet one step of its compact build differs. */
  lemma ReservedDefineIsMisread() returns (lines: seq<OutputLine>)
    ensures CompactFrom(RESERVED_DEFINE, lines) && ProgramOf(RESERVED_DEFINE) == [DEFINE, MOVE]
    ensures LineBlind([DEFINE, MOVE], KeptOf(lines)) && !Transparent([DEFINE, MOVE])
    ensures Diverges([DEFINE, MOVE], Rebuilt(lines), KeptOf(lines), StartAt(1, 2))
  {
    hide Lawful, ProgramOf, QuotedWordsFree, QuotesClosed, NoNewlines, CompactLines, LineBlind, Diverges, RoleOf,
        DirectRegister, Follow, Sentence;
    ReservedReads();
    ReservedIsLawful();
    assert Lower("define") == "define" && Lower("move") == "move" && !IsBranch("move") && !IsBranch("define") by {
      assert "move"[..1] == "m" && "define"[..1] == "d";
    }
    StraightLineBuilds(RESERVED_DEFINE);
    lines := CompactLines(RESERVED_DEFINE).value.lines;
    ReservedIsBlind(KeptOf(lines));
    ReservedIsRead();
    ReservedFollows("alias", "r0");
    ReservedFollows("define", "r0");
    assert !IsJump("move") by { assert "move"[0] == 'm'; }
    assert DataOperands(MOVE)[1] == "r0" && !ReadsPlainly([DEFINE, MOVE], RoleOf("move", 1), DataOperands(MOVE)[1]);
    assert !PlainOperation([DEFINE, MOVE], MOVE);
    MisreadDiverges(RESERVED_DEFINE, lines, 1, 1);
  }
}
