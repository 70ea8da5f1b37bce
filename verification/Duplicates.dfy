/** With a label declared twice the compiler follows the first declaration and the machine the last. */
module Duplicates {
  import opened Prelude
  import opened Text
  import opened Literals
  import opened Symbols
  import opened Machine
  import opened Relinking
  import opened Environment
  import opened Carrying
  import opened Words
  import opened Lines
  import opened Adjusting
  import opened Readable
  import opened Compact
  import opened CompactRuns
  import opened NameTransfer
  import opened Necessity

  function Pair(a: string, b: string): string { a + [' '] + b }

  /** `yield` between two labels `x`, then a jump to `x`. */
  const TWO_LABELS: seq<string> := ["x:", "yield", "x:", Pair("j", "x")]

  const YIELD: LineKind := Instruction("yield", [])
  const JUMP: LineKind := Instruction("j", ["x"])
  const SOURCE: seq<LineKind> := [Label("x"), YIELD, Label("x"), JUMP]

  // ----- the source -----

  lemma {:induction false} FilterMapSame(f: OutputLine -> Option<OutputLine>, output: seq<OutputLine>)
    requires forall i :: 0 <= i < |output| ==> f(output[i]) == Some(output[i])
    ensures FilterMap(f, output) == output
  {
    if output != [] {
      var n := |output| - 1;
      FilterMapSame(f, output[..n]);
      assert output == output[..n] + [output[n]];
    }
  }

  lemma {:induction false} FilterMapDropsFirst(f: OutputLine -> Option<OutputLine>, output: seq<OutputLine>)
    requires output != [] && f(output[0]) == None && forall i :: 0 < i < |output| ==> f(output[i]) == Some(output[i])
    ensures FilterMap(f, output) == output[1..]
  {
    var n := |output| - 1;
    if n == 0 {
      assert output[..n] == [] && FilterMap(f, []) == [];
    } else {
      FilterMapDropsFirst(f, output[..n]);
      assert output[1..] == output[..n][1..] + [output[n]];
    }
  }

  /** An output line holding clean text, read as its kind. */
  function LineOf(i: nat, text: string): OutputLine {
    var k := Classify(Tokenize(text));
    OutputLine(i, text, MnemonicOf(k), OperandsOf(k))
  }

  lemma LineOfIsConsistent(i: nat, text: string)
    requires Clean(text)
    ensures Consistent(LineOf(i, text)) && OutputOf(i, text) == [LineOf(i, text)]
  {
    CleanIsNeat(text);
    CleanOutput(i, LineOf(i, text));
  }

  lemma {:induction false} KeepsClean(raw: seq<string>)
    requires forall i :: 0 <= i < |raw| ==> Clean(raw[i])
    ensures KeptLines(raw) == seq(|raw|, i requires 0 <= i < |raw| => LineOf(i, raw[i]))
    ensures ProgramOf(raw) == seq(|raw|, i requires 0 <= i < |raw| => Classify(Tokenize(raw[i])))
  {
    hide Clean, LineOf, OutputOf, Tokens, Classify, ParseLine;
    forall i | 0 <= i < |raw| ensures ParseLine(raw[i]).kind == Classify(Tokenize(raw[i])) { CleanReads(raw[i]); }
    if raw != [] {
      var n := |raw| - 1;
      KeepsClean(raw[..n]);
      LineOfIsConsistent(n, raw[n]);
    }
  }

  lemma WordIsClean(t: string)
    requires Alphanumeric(t)
    ensures Clean(t) && Tokenize(t) == [t]
  {
    assert !IsWhitespace(t[0]) && !IsWhitespace(t[|t| - 1]);
    hide IsCode, Tokens;
    WordTokens(t);
    CleanIsNeat(t);
  }

  lemma PairTokens(a: string, b: string)
    requires Alphanumeric(a) && Alphanumeric(b)
    ensures Clean(Pair(a, b)) && Tokenize(Pair(a, b)) == [a, b]
  {
    assert !IsWhitespace(a[0]) && !IsWhitespace(b[|b| - 1]);
    assert Pair(a, b)[0] == a[0] && Pair(a, b)[|Pair(a, b)| - 1] == b[|b| - 1];
    hide IsCode, Tokens, IsWhitespace, IsLetter;
    WordTokens(a);
    WordTokens(b);
    Rejoin(a, ' ', b);
    CleanIsNeat(Pair(a, b));
  }

  lemma LabelTokens()
    ensures Clean("x:") && Tokenize("x:") == ["x:"]
  {
    var s := "x:";
    assert s[1..] == ":" && ":"[1..] == "";
    assert Solid(Outside, s) && Balanced(s) && CommentStart(Outside, s).None?;
    SolidIsOneToken(Outside, [], s);
    assert [] + s == s;
  }

  lemma FourLines(a: string, b: string, c: string, d: string)
    requires Clean(a) && Clean(b) && Clean(c) && Clean(d)
    ensures KeptLines([a, b, c, d]) == [LineOf(0, a), LineOf(1, b), LineOf(2, c), LineOf(3, d)]
    ensures ProgramOf([a, b, c, d]) ==
      [Classify(Tokenize(a)), Classify(Tokenize(b)), Classify(Tokenize(c)), Classify(Tokenize(d))]
  {
    hide Clean, Tokens, ProgramOf, LineOf, KeptLines;
    KeepsClean([a, b, c, d]);
  }

  lemma SourceTokens()
    ensures Clean("x:") && Clean("yield") && Clean(Pair("j", "x"))
    ensures Tokenize("x:") == ["x:"] && Tokenize("yield") == ["yield"] && Tokenize(Pair("j", "x")) == ["j", "x"]
  {
    assert Alphanumeric("yield") && Alphanumeric("j") && Alphanumeric("x");
    hide Clean, Tokenize, Pair, Alphanumeric;
    LabelTokens();
    WordIsClean("yield");
    PairTokens("j", "x");
  }

  lemma SourceReads()
    ensures Clean("x:") && Clean("yield") && Clean(Pair("j", "x"))
    ensures ProgramOf(TWO_LABELS) == SOURCE
    ensures KeptLines(TWO_LABELS) == [LineOf(0, "x:"), LineOf(1, "yield"), LineOf(2, "x:"), LineOf(3, Pair("j", "x"))]
    ensures Tokenize("x:") == ["x:"] && Tokenize("yield") == ["yield"] && Tokenize(Pair("j", "x")) == ["j", "x"]
  {
    hide Clean, Tokenize, Pair, ProgramOf, KeptLines, LineOf, Classify;
    SourceTokens();
    FourLines("x:", "yield", "x:", Pair("j", "x"));
    SourceKinds();
  }

  lemma SourceKinds()
    ensures Classify(["x:"]) == Label("x") && Classify(["yield"]) == YIELD && Classify(["j", "x"]) == JUMP
  {
    assert "x:"[..1] == "x";
  }

  lemma SourceTable()
    ensures Collect(SOURCE) == map["x" := Symbol(LabelName, None, 0)]
    ensures RenamingOf(SOURCE) == Renaming(map[], map[])
    ensures RemovableLabels(SOURCE) == {"x"} && LabelLines(SOURCE) == {0}
    ensures NamesAreIdentifiers(SOURCE) && Acyclic(Collect(SOURCE)) && !Unique(SOURCE)
  {
    var p := SOURCE;
    assert p[..3] == [Label("x"), YIELD, Label("x")] && p[..3][..2] == [Label("x"), YIELD] &&
        p[..3][..2][..1] == [Label("x")];
    assert [Label("x")][..0] == [] && IsIdentifier("x");
    assert Collect([Label("x")]) == map["x" := Symbol(LabelName, None, 0)];
    assert Collect([Label("x"), YIELD]) == Collect([Label("x")]);
    assert Collect(p[..3]) == Collect([Label("x")]);
    assert Collect(p) == Collect([Label("x")]);
    NoPrivateAliases(p);
    assert RawDefines(Collect(p)) == map[];
    assert ShortNames([], Collect(p).Keys) == map[];
    assert Declared(p[0], 0).value.0 == Declared(p[2], 2).value.0;
    assert IsAbsoluteBranch("j");
  }

  lemma NoPrivateAliases(p: seq<LineKind>)
    requires forall name :: name in Collect(p) ==> Collect(p)[name].kind != AliasName
    ensures PrivateAliases(p) == []
  {
    var names := PrivateAliases(p);
    if names != [] {
      PrivateAliasesAre(p, names[0]);
    }
  }

  // ----- the build -----

  lemma NothingSubstituted(line: OutputLine)
    requires line.text != []
    ensures SubstituteLine(Renaming(map[], map[]), line) == Some(line)
  {
    ReplacedNothing(map[], [], line.text);
    assert Replacements(Renaming(map[], map[])) == map[];
    assert [] + line.text == line.text;
    assert SubAll(map[], line.operands) == line.operands;
  }

  /** The first declaration goes, the second stays. */
  lemma SecondLabelSurvives()
    ensures Surviving(TWO_LABELS) == [LineOf(1, "yield"), LineOf(2, "x:"), LineOf(3, Pair("j", "x"))]
  {
    hide KeptLines, ProgramOf, Collect, LabelLines, RenamingOf, SubstituteLine, FilterMap, Tokenize;
    SourceReads();
    SourceTable();
    var all := KeptLines(TWO_LABELS);
    var f, h := line => SubstituteLine(RenamingOf(SOURCE), line), line => RetainLine(LabelLines(SOURCE), line);
    forall i | 0 <= i < 4 ensures f(all[i]) == Some(all[i]) { NothingSubstituted(all[i]); }
    FilterMapSame(f, all);
    FilterMapDropsFirst(h, all);
  }

  /** The jump is relabelled with the place of the first declaration: line 0. */
  lemma JumpRelabelled(table: Table, line: OutputLine)
    requires "x" in table && table["x"].line == 0 && line.mnemonic == Some("j") && line.operands == ["x"]
    ensures var moved := line.(text := ReplaceTokens(line.text, map["x" := "0"]), operands := ["0"]);
      RelabelLine(table, {"x"}, LineMap(4, [1, 2, 3]), line) == Ok(moved)
  {
    hide LineMap, ReplaceTokens;
    BelowIs([1, 2, 3], 4, 0, 0);
    TranslateIsBelow(4, [1, 2, 3], 0);
    assert IntText(0) == "0" && IsAbsoluteBranch("j") && ["x"][..0] + ["0"] == ["0"];
  }

  lemma JumpText(a: string, b: string, n: string)
    requires Alphanumeric(a) && Alphanumeric(b) && Alphanumeric(n) && a != b
    ensures var text := ReplaceTokens(Pair(a, b), map[b := n]);
      Neat(text) && Tokenize(text) == [a, n]
  {
    AlphanumericIsWord(a);
    AlphanumericIsWord(b);
    WordTokens(n);
    IdentifierIsToken(n);
    hide IsCode, Tokens, Pair, Replaced, IsWord, Alphanumeric;
    PairTokens(a, b);
    CleanIsNeat(Pair(a, b));
    ReplaceTokensTokens(Pair(a, b), map[b := n]);
    assert SubAll(map[b := n], [a, b]) == [a, n];
  }

  function MovedJump(): OutputLine {
    OutputLine(3, ReplaceTokens(Pair("j", "x"), map["x" := "0"]), Some("j"), ["0"])
  }

  function SurvivingFour(): seq<OutputLine> { [LineOf(1, "yield"), LineOf(2, "x:"), LineOf(3, Pair("j", "x"))] }

  function BuiltLines(): seq<OutputLine> { [LineOf(1, "yield"), LineOf(2, "x:"), MovedJump()] }

  lemma LineOfIs(i: nat, text: string, tokens: seq<string>, k: LineKind)
    requires Tokenize(text) == tokens && Classify(tokens) == k
    ensures LineOf(i, text) == OutputLine(i, text, MnemonicOf(k), OperandsOf(k))
  {}

  lemma LineFields()
    ensures LineOf(1, "yield").mnemonic == Some("yield") && LineOf(1, "yield").operands == []
    ensures LineOf(2, "x:").mnemonic == None && LineOf(2, "x:").operands == []
    ensures LineOf(3, Pair("j", "x")).mnemonic == Some("j") && LineOf(3, Pair("j", "x")).operands == ["x"]
  {
    hide Tokenize, Classify, Pair, Lower, LineOf, Clean, KeptLines, ProgramOf;
    SourceReads();
    SourceKinds();
    LineOfIs(1, "yield", ["yield"], YIELD);
    LineOfIs(2, "x:", ["x:"], Label("x"));
    LineOfIs(3, Pair("j", "x"), ["j", "x"], JUMP);
    LowerYield();
    LowerJump();
  }

  lemma LowerYield()
    ensures Lower("yield") == "yield"
  {}

  lemma UnbranchedStays(table: Table, removable: set<string>, m: seq<Option<nat>>, line: OutputLine)
    requires removable <= table.Keys && line.operands == []
    ensures RelabelLine(table, removable, m, line) == Ok(line)
    ensures forall x, g :: Adjustment(x, g, line) == Ok(None)
  {}

  lemma Relabels(table: Table)
    requires "x" in table && table["x"].line == 0
    ensures RelabelUpTo(table, {"x"}, LineMap(4, [1, 2, 3]), SurvivingFour(), 3) == Ok(BuiltLines())
  {
    hide RelabelLine, LineOf, LineMap, ReplaceTokens, Pair;
    var m, before := LineMap(4, [1, 2, 3]), SurvivingFour();
    LineFields();
    LineOfSource(3, Pair("j", "x"));
    UnbranchedStays(table, {"x"}, m, before[0]);
    UnbranchedStays(table, {"x"}, m, before[1]);
    JumpRelabelled(table, before[2]);
    assert RelabelLine(table, {"x"}, m, before[2]) == Ok(MovedJump()) by { JumpLine(); }
    NothingRelabelled(table, {"x"}, m, before, 2);
    assert before[..2] + [MovedJump()] == BuiltLines();
  }

  lemma JumpLine()
    ensures LineOf(3, Pair("j", "x")).(text := ReplaceTokens(Pair("j", "x"), map["x" := "0"]), operands := ["0"]) ==
        MovedJump()
  {
    hide LineOf, ReplaceTokens, Pair, Tokenize;
    LineFields();
    assert LineOf(3, Pair("j", "x")).sourceLine == 3 by { LineOfSource(3, Pair("j", "x")); }
  }

  lemma LineOfSource(i: nat, text: string)
    ensures LineOf(i, text).sourceLine == i && LineOf(i, text).text == text
  {}

  lemma Adjusts(x: Context)
    requires x.relabelled == {3}
    ensures AdjustAll(x, BuiltLines()) == Ok(Adjusted(BuiltLines(), 0, 0))
  {
    hide LineOf, ReplaceTokens, Pair, Adjustment;
    LineFields();
    var lines := BuiltLines();
    UnbranchedStays(map[], {}, [], lines[0]);
    UnbranchedStays(map[], {}, [], lines[1]);
    SkipsRelabelled(x, 2, lines[2]);
    NothingAdjusted(x, lines, 3);
    assert lines[..3] == lines;
  }

  /** The stages of a compact build, given the result of each. */
  lemma CompactStages(raw: seq<string>, table: Table, removable: set<string>, before: seq<OutputLine>,
                      built: seq<OutputLine>, relabelled: set<nat>)
    requires table == Collect(ProgramOf(raw)) && removable == RemovableLabels(ProgramOf(raw))
    requires before == Surviving(raw)
    requires KeptOf(built) == KeptOf(before) && (forall g :: 0 <= g < |before| ==> before[g].sourceLine < |raw|)
    requires removable <= table.Keys
    requires RelabelUpTo(table, removable, LineMap(|raw|, KeptOf(before)), before, |before|) == Ok(built)
    requires relabelled == RelabelledLines(removable, before)
    requires forall x: Context :: x.relabelled == relabelled ==> AdjustAll(x, built) == Ok(Adjusted(built, 0, 0))
    ensures CompactLines(raw) == Ok(Adjusted(built, 0, 0))
  {
    hide Surviving, ProgramOf, RemovableLabels, Collect, LineMap, RelabelUpTo, AdjustAll, RelabelledLines;
    SurvivingInRange(raw);
    forall g | 0 <= g < |built| ensures built[g].sourceLine < |raw| { assert KeptOf(built)[g] == KeptOf(before)[g]; }
    var x := ContextOf(ProgramOf(raw), built, relabelled);
    assert AdjustAll(x, built) == Ok(Adjusted(built, 0, 0));
  }

  lemma OnlyJumpRelabelled()
    ensures RelabelledLines({"x"}, SurvivingFour()) == {3} && KeptOf(SurvivingFour()) == [1, 2, 3]
    ensures KeptOf(BuiltLines()) == [1, 2, 3]
  {
    hide LineOf, ReplaceTokens, Pair, Tokenize;
    LineFields();
    LineOfSource(1, "yield");
    LineOfSource(2, "x:");
    LineOfSource(3, Pair("j", "x"));
    var before := SurvivingFour();
    assert before[2] in before && NamesRemoved({"x"}, before[2]) by { assert IsAbsoluteBranch("j"); }
    forall line | line in before ensures NamesRemoved({"x"}, line) <==> line == before[2] {}
  }

  lemma Builds()
    ensures CompactLines(TWO_LABELS) == Ok(Adjusted(BuiltLines(), 0, 0))
  {
    hide LineOf, Surviving, ProgramOf, RemovableLabels, Collect, LineMap, ReplaceTokens, Pair, RelabelUpTo, AdjustAll,
        RelabelledLines, CompactLines, BuiltLines, SurvivingFour, KeptOf, Tokenize, Clean, KeptLines;
    assert Surviving(TWO_LABELS) == SurvivingFour() by { SecondLabelSurvives(); AreTheFour(); }
    SurvivingInRange(TWO_LABELS);
    SourceReads();
    SourceTable();
    OnlyJumpRelabelled();
    Relabels(Collect(SOURCE));
    forall x: Context | x.relabelled == {3}
      ensures AdjustAll(x, BuiltLines()) == Ok(Adjusted(BuiltLines(), 0, 0))
    {
      Adjusts(x);
    }
    CompactStages(TWO_LABELS, Collect(SOURCE), {"x"}, SurvivingFour(), BuiltLines(), {3});
  }

  lemma AreTheFour()
    ensures SurvivingFour() == [LineOf(1, "yield"), LineOf(2, "x:"), LineOf(3, Pair("j", "x"))]
  {}

  // ----- the difference -----

  lemma KindOfLine(line: OutputLine, tokens: seq<string>, k: LineKind)
    requires Tokenize(line.text) == tokens && Classify(tokens) == k
    ensures KindOf(line) == k
  {}

  lemma BuiltLineKinds()
    ensures KindOf(LineOf(1, "yield")) == YIELD && Neat(LineOf(1, "yield").text)
    ensures KindOf(LineOf(2, "x:")) == Label("x") && Neat(LineOf(2, "x:").text)
  {
    hide Neat, Tokenize, LineOf, Classify, Pair, Clean, KeptLines, ProgramOf, KindOf;
    SourceReads();
    SourceKinds();
    LineOfSource(1, "yield");
    LineOfSource(2, "x:");
    CleanIsNeat("yield");
    CleanIsNeat("x:");
    KindOfLine(LineOf(1, "yield"), ["yield"], YIELD);
    KindOfLine(LineOf(2, "x:"), ["x:"], Label("x"));
  }

  lemma JumpKind()
    ensures KindOf(MovedJump()) == Instruction("j", ["0"]) && Neat(MovedJump().text)
  {
    assert Alphanumeric("j") && Alphanumeric("x") && Alphanumeric("0");
    hide Neat, Tokenize, Classify, Pair, ReplaceTokens, Alphanumeric, KindOf;
    JumpText("j", "x", "0");
    NumberedJump();
    KindOfLine(MovedJump(), ["j", "0"], Instruction("j", ["0"]));
  }

  lemma BuiltKinds()
    ensures KindsOf(BuiltLines()) == [YIELD, Label("x"), Instruction("j", ["0"])]
    ensures forall g :: 0 <= g < 3 ==> Neat(BuiltLines()[g].text)
  {
    hide Neat, LineOf, MovedJump, KindOf;
    BuiltLineKinds();
    JumpKind();
  }

  lemma BuiltReads()
    ensures Rebuilt(BuiltLines()) == [YIELD, Label("x"), Instruction("j", ["0"])]
  {
    hide Neat, KindsOf;
    assert |BuiltLines()| == 3;
    hide BuiltLines;
    BuiltKinds();
    CodeLines(BuiltLines());
  }

  lemma NumberedJump()
    ensures Classify(["j", "0"]) == Instruction("j", ["0"])
  {}

  lemma SourceJumps(p: seq<LineKind>)
    requires |p| == 4 && p[0] == Label("x") && p[1].Instruction? && !IsDirective(p[1]) && p[2] == Label("x")
    requires p[3] == JUMP
    ensures TargetOf(p, 3, "j", "x") == Fixed(2)
  {
    assert !IsDirective(JUMP) by { assert "j"[0] == 'j' && "alias"[0] == 'a'; }
    hide LabelLine, Binding;
    NoBinding(p, "alias", "x");
    NoBinding(p, "define", "x");
    LabelLineIs(p, "x", 2);
    assert "x"[..1][0] == 'x';
  }

  lemma BuildJumps(q: seq<LineKind>)
    requires NamesAreIdentifiers(q)
    ensures TargetOf(q, 2, "j", "0") == Fixed(0)
  {
    IntTextParses(0);
    assert IntText(0) == "0";
    hide ReadQuantity, ParseInteger;
    LiteralIsWord(q, "0");
  }

  /** Two jumps to lines that do not correspond. */
  lemma FixedJumpsDiffer(p: seq<LineKind>, q: seq<LineKind>, kept: seq<nat>, g: nat, d: nat, generated: nat)
    requires Increasing(kept, |p|) && g < |kept| == |q| && IsOperation(p[kept[g]]) && IsOperation(q[g])
    requires p[kept[g]].mnemonic == q[g].mnemonic == "j" && |p[kept[g]].operands| == |q[g].operands| == 1
    requires TargetOf(p, kept[g], "j", p[kept[g]].operands[0]) == Fixed(d)
    requires TargetOf(q, g, "j", q[g].operands[0]) == Fixed(generated)
    requires Rank(kept, |p|, d) != generated
    ensures Diverges(p, q, kept, StartAt(kept[g], |p|))
  {
    RankOfKept(kept, |p|, g);
    LowerJump();
    hide Rank, ReadAll, DataOperands, TargetOf, Lower, IsDirective, NamesReturnAddress, IsRelative;
    var c, e := StartAt(kept[g], |p|), Probe(|p|);
    assert Step(p, e, c).pc == d;
    assert Step(q, e, Moved(kept, |p|, c)).pc == generated;
  }

  lemma SourceDiverges()
    ensures Diverges(SOURCE, [YIELD, Label("x"), Instruction("j", ["0"])], [1, 2, 3], StartAt(3, 4))
  {
    Operations();
    hide TargetOf, Below, Diverges, IsOperation, IsDirective;
    SourceJumps(SOURCE) by { Operations(); NoDirectives(); }
    BuildJumps([YIELD, Label("x"), Instruction("j", ["0"])]) by { BuildNames(); }
    BelowIs([1, 2, 3], 4, 2, 1);
    FixedJumpsDiffer(SOURCE, [YIELD, Label("x"), Instruction("j", ["0"])], [1, 2, 3], 2, 2, 0);
  }

  lemma NoDirectives()
    ensures !IsDirective(YIELD)
  {
    assert "yield"[0] == 'y' && "alias"[0] == 'a' && "define"[0] == 'd';
  }

  /** Everything is accepted, and yet one step differs: the source goes to the second label, the build to line 0. */
  lemma DuplicateLabelDiverges()
    ensures NamesAreIdentifiers(SOURCE) && Acyclic(Collect(SOURCE)) && ProgramOf(TWO_LABELS) == SOURCE
    ensures !Unique(SOURCE)
    ensures CompactLines(TWO_LABELS) == Ok(Adjusted(BuiltLines(), 0, 0)) && KeptOf(BuiltLines()) == [1, 2, 3]
    ensures Diverges(SOURCE, Rebuilt(BuiltLines()), KeptOf(BuiltLines()), StartAt(3, 4))
  {
    hide ProgramOf, Collect, BuiltLines, CompactLines, KeptLines, Tokenize, Clean, Pair, LineOf, Diverges, Rebuilt,
        KeptOf, Unique, Acyclic, StartAt;
    assert ProgramOf(TWO_LABELS) == SOURCE by { SourceReads(); }
    SourceTable();
    Builds();
    BuiltReads();
    assert KeptOf(BuiltLines()) == [1, 2, 3] by { OnlyJumpRelabelled(); }
    SourceDiverges();
  }

  lemma Operations()
    ensures IsOperation(JUMP) && IsOperation(Instruction("j", ["0"])) && IsOperation(YIELD)
  {
    assert "j"[0] == 'j' && "alias"[0] == 'a' && "define"[0] == 'd';
  }

  lemma BuildNames()
    ensures NamesAreIdentifiers([YIELD, Label("x"), Instruction("j", ["0"])])
  {
    assert IsIdentifier("x");
    assert "j"[0] == 'j' && "yield"[0] == 'y' && "alias"[0] == 'a' && "define"[0] == 'd';
  }
}
