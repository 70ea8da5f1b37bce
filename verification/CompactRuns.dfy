/** Compact builds carry their source over: substitution, relabelling and adjustment composed. */
module CompactRuns {
  import opened Prelude
  import opened Text
  import opened Literals
  import opened Registers
  import opened Symbols
  import opened Machine
  import opened Relinking
  import opened Carrying
  import opened Words
  import opened Lines
  import opened Adjusting
  import opened Readable
  import opened Compact
  import opened NameTransfer
  import opened CompactText

  // ----- relabelling -----

  /** A substituted operand is a removable label only if it was that label to begin with. */
  lemma RemovableOrigin(p: seq<LineKind>, t: string)
    requires Lawful(p) && Removable(p, Sub(Renames(p), t))
    ensures Sub(Renames(p), t) == t
  {
    hide Renames, IsBoundValue, NamesAreIdentifiers, Unique, PlainMnemonics, Collect;
    SubCases(p, t);
    DefineResolves(p, t);
    FollowIsBoundValue(p, "define", t, HOPS);
    var v := Follow(p, "define", t, HOPS);
    if IsBoundValue(p, v) { BoundValues(p, v); }
  }

  lemma RemovableIsLabel(p: seq<LineKind>, name: string)
    requires Lawful(p) && Removable(p, name)
    ensures name in Collect(p) && Collect(p)[name].line < |p| && LabelLine(p, name) == Some(Collect(p)[name].line)
  {
    hide Collect, Unique, NamesAreIdentifiers, PlainMnemonics;
    LabelIsSymbol(p, name);
  }

  /** A removable label that is no register is the line it labels. */
  lemma RemovableResolves(p: seq<LineKind>, name: string)
    requires Lawful(p) && Removable(p, name) && !IsRegister(name)
    ensures name in Collect(p) && ReadQuantity(p, name) == Line(Collect(p)[name].line)
  {
    hide Collect, Unique, NamesAreIdentifiers, PlainMnemonics, IsIndirect, DirectRegister;
    RemovableIsLabel(p, name);
    BindingIsSymbol(p, "alias", name);
    BindingIsSymbol(p, "define", name);
  }

  /** Tokens of a substituted line. */
  lemma SubstitutedTokens(raw: seq<string>, i: nat)
    requires LawfulSource(raw) && i < |raw|
    ensures forall t ::
        t in TokensOf(SubKind(Renames(ProgramOf(raw)), ProgramOf(raw)[i])) ==> FreeToken(Collect(ProgramOf(raw)), t)
  {
    hide Lawful, IsPlain, FreeToken, ProgramOf, Renames;
    var p := ProgramOf(raw);
    var r := Renames(p);
    SourceTokensArePlain(raw, i);
    if p[i].Instruction? {
      forall t | t in TokensOf(SubKind(r, p[i])) ensures FreeToken(Collect(p), t) {
        assert p[i].mnemonic in TokensOf(p[i]);
        if t != p[i].mnemonic {
          var j :| 0 <= j < |p[i].operands| && SubAll(r, p[i].operands)[j] == t;
          assert p[i].operands[j] in TokensOf(p[i]);
          SubIsFree(raw, p[i].operands[j]);
        }
      }
    }
  }

  lemma OnlyLastReplaced(operands: seq<string>, name: string, text: string)
    requires operands != [] && operands[|operands| - 1] == name && name != []
    requires forall j :: 0 <= j < |operands| - 1 ==> operands[j] != name
    ensures SubAll(map[name := text], operands) == operands[..|operands| - 1] + [text]
  {}

  /** The label of a relabelled line was its last source operand, and stands nowhere else on the line. */
  lemma RemovedLabelIsLast(p: seq<LineKind>, i: nat, name: string)
    requires Lawful(p) && i < |p| && p[i].Instruction? && p[i].operands != []
    requires Removable(p, name) && Sub(Renames(p), p[i].operands[|p[i].operands| - 1]) == name
    ensures p[i].operands[|p[i].operands| - 1] == name && name != []
    ensures forall j :: 0 <= j < |p[i].operands| - 1 ==> SubAll(Renames(p), p[i].operands)[j] != name
  {
    hide Renames, NamesAreIdentifiers, Unique, PlainMnemonics, Removable, ShortNamesUnused, DefinesEndOutsideAliases,
        ShortChains, Collect;
    var operands := p[i].operands;
    RemovableOrigin(p, operands[|operands| - 1]);
    forall j | 0 <= j < |operands| - 1 ensures SubAll(Renames(p), operands)[j] != name {
      if SubAll(Renames(p), operands)[j] == name { RemovableOrigin(p, operands[j]); }
    }
    RemovableIsName(p, name);
  }

  lemma RemovableIsName(p: seq<LineKind>, name: string)
    requires Removable(p, name)
    ensures name in Collect(p) && name != []
  {
    CollectEntries(p, name);
  }

  /** Replacing the label of a branch by its line number keeps the line consistent. */
  lemma RelabelledAgrees(raw: seq<string>, i: nat, u: OutputLine, name: string, text: string)
    requires LawfulSource(raw) && i < |raw| && Consistent(u)
    requires KindOf(u) == SubKind(Renames(ProgramOf(raw)), ProgramOf(raw)[i])
    requires u.operands != [] && u.operands[|u.operands| - 1] == name && Removable(ProgramOf(raw), name)
    requires IsPlain(text)
    requires u.mnemonic.Some? && IsAbsoluteBranch(u.mnemonic.value)
    ensures var v := u.(text := ReplaceTokens(u.text, map[name := text]), operands := u.operands[..|u.operands| - 1] +
        [text]);
      Consistent(v) && SameButTarget(KindOf(u), KindOf(v))
    ensures ProgramOf(raw)[i].operands[|u.operands| - 1] == name
  {
    hide Lawful, IsPlain, FreeToken, ProgramOf, Renames, Removable, IsWord, Neat, Tokens, Classify;
    var p := ProgramOf(raw);
    var r := map[name := text];
    RemovedLabelIsLast(p, i, name);
    OnlyLastReplaced(u.operands, name, text);
    RemovableIsName(p, name);
    SubstitutedTokens(raw, i);
    ClassifyKeepsTokens(Tokenize(u.text));
    forall t | t in Tokenize(u.text) ensures SafeToken(r, t) { FreeIsSafe(p, r, t); }
    SymbolsAreWords(p, name);
    LawfulMnemonic(p, i);
    SubstitutedAgrees(r, u, KindOf(u));
  }

  // ----- one line through every stage -----

  ghost predicate CompactFrom(raw: seq<string>, lines: seq<OutputLine>) {
    LawfulSource(raw) && CompactLines(raw).Ok? && CompactLines(raw).value.lines == lines
  }

  /** The stages of generated line `g`: substituted as `u`, relabelled as `v`, then adjusted. */
  ghost predicate Stages(raw: seq<string>, lines: seq<OutputLine>, g: nat, x: Context, u: OutputLine, v: OutputLine)
    requires g < |lines|
  {
    var p, kept := ProgramOf(raw), KeptOf(lines);
    && AdjustsFor(x, p, kept) && x.relabelled == RelabelledLines(RemovableLabels(p), Surviving(raw))
    && kept == KeptOf(Surviving(raw)) && u == Surviving(raw)[g]
    && RemovableLabels(p) <= Collect(p).Keys
    && RelabelLine(Collect(p), RemovableLabels(p), LineMap(|p|, kept), u) == Ok(v)
    && Adjustment(x, g, v).Ok? && lines[g] == Retargeted(v, Adjustment(x, g, v).value)
  }

  lemma CompactLine(raw: seq<string>, lines: seq<OutputLine>, g: nat) returns (x: Context, u: OutputLine, v: OutputLine)
    requires CompactFrom(raw, lines) && g < |lines|
    ensures Stages(raw, lines, g, x, u, v)
  {
    hide LawfulSource, RelabelLine, Adjustment, Retargeted, RelabelUpTo, AdjustUpTo, Surviving, RelabelledLines,
        LineMap, RemovableLabels, Collect, ProgramOf;
    var p := ProgramOf(raw);
    var removable := RemovableLabels(p);
    RemovableAreSymbols(p);
    var before := Surviving(raw);
    SurvivingInRange(raw);
    var m := LineMap(|p|, KeptOf(before));
    var relabelled := RelabelUpTo(Collect(p), removable, m, before, |before|).value;
    RelabelKeeps(Collect(p), removable, m, before, |before|);
    assert KeptOf(relabelled) == KeptOf(before);
    x := ContextOf(p, relabelled, RelabelledLines(removable, before));
    AdjustedKept(x, relabelled);
    AdjustedLine(x, relabelled, |relabelled|, g);
    u, v := before[g], relabelled[g];
  }

  lemma RemovableAreSymbols(p: seq<LineKind>)
    ensures RemovableLabels(p) <= Collect(p).Keys
  {}

  lemma CompactKept(raw: seq<string>, lines: seq<OutputLine>)
    requires CompactFrom(raw, lines)
    ensures KeptOf(lines) == KeptOf(Surviving(raw)) && Increasing(KeptOf(lines), |raw|)
  {
    hide LawfulSource, RelabelLine, RelabelUpTo, AdjustUpTo, Surviving, RelabelledLines, LineMap, RemovableLabels,
        Collect, ProgramOf;
    var p := ProgramOf(raw);
    SurvivingInRange(raw);
    RemovableAreSymbols(p);
    var before := Surviving(raw);
    var m := LineMap(|p|, KeptOf(before));
    var relabelled := RelabelUpTo(Collect(p), RemovableLabels(p), m, before, |before|).value;
    RelabelKeeps(Collect(p), RemovableLabels(p), m, before, |before|);
    assert KeptOf(relabelled) == KeptOf(before);
    AdjustedKept(ContextOf(p, relabelled, RelabelledLines(RemovableLabels(p), before)), relabelled);
  }

  /** After relabelling a line agrees with its text; a relabelled operand is the rank of the label's line. */
  ghost predicate RelabelledFrom(p: seq<LineKind>, kept: seq<nat>, a: LineKind, u: OutputLine, v: OutputLine) {
    && Consistent(v) && v.sourceLine == u.sourceLine && v.mnemonic == u.mnemonic && |v.operands| == |u.operands|
    && SameButTarget(KindOf(u), KindOf(v))
    && if NamesRemoved(RemovableLabels(p), u) then
         var last := |u.operands| - 1;
         && a.Instruction? && |a.operands| == |u.operands| && Removable(p, a.operands[last])
         && a.operands[last] in Collect(p)
         && v.operands[last] == IntText(Rank(kept, |p|, Collect(p)[a.operands[last]].line))
       else v == u
  }

  lemma RelabelledLine(raw: seq<string>, lines: seq<OutputLine>, g: nat, x: Context, u: OutputLine, v: OutputLine)
    requires CompactFrom(raw, lines) && g < |lines| && Stages(raw, lines, g, x, u, v)
    ensures u.sourceLine < |raw| && KeptOf(lines)[g] == u.sourceLine
    ensures var a := ProgramOf(raw)[u.sourceLine];
      && !Dropped(ProgramOf(raw), a) && Consistent(u) && KindOf(u) == SubKind(Renames(ProgramOf(raw)), a)
      && RelabelledFrom(ProgramOf(raw), KeptOf(lines), a, u, v)
  {
    hide LawfulSource, Adjustment, Retargeted, Surviving, RelabelledLines, LineMap, Collect, ProgramOf, Removable,
        Consistent, RelabelLine, IsAbsoluteBranch, Renames, Dropped, CompactLines, RelabelledFrom;
    var p, kept := ProgramOf(raw), KeptOf(lines);
    SourceIsLawful(raw);
    var i := SurvivorIsNotDropped(raw, g);
    if NamesRemoved(RemovableLabels(p), u) {
      RemovedLineRelabelled(raw, kept, u, v);
    } else {
      assert v == u by { OtherLineStays(Collect(p), RemovableLabels(p), LineMap(|p|, kept), u); }
      OtherLineKept(p, kept, p[i], u);
    }
  }

  lemma OtherLineStays(table: Table, removable: set<string>, m: seq<Option<nat>>, u: OutputLine)
    requires removable <= table.Keys && !NamesRemoved(removable, u)
    ensures RelabelLine(table, removable, m, u) == Ok(u)
  {}

  lemma OtherLineKept(p: seq<LineKind>, kept: seq<nat>, a: LineKind, u: OutputLine)
    requires Consistent(u) && !NamesRemoved(RemovableLabels(p), u)
    ensures RelabelledFrom(p, kept, a, u, u)
  {}

  lemma RemovedLineRelabelled(raw: seq<string>, kept: seq<nat>, u: OutputLine, v: OutputLine)
    requires LawfulSource(raw) && Increasing(kept, |raw|) && u.sourceLine < |raw|
    requires RemovableLabels(ProgramOf(raw)) <= Collect(ProgramOf(raw)).Keys
    requires NamesRemoved(RemovableLabels(ProgramOf(raw)), u)
    requires RelabelLine(Collect(ProgramOf(raw)), RemovableLabels(ProgramOf(raw)), LineMap(|raw|, kept), u) == Ok(v)
    requires Consistent(u) && KindOf(u) == SubKind(Renames(ProgramOf(raw)), ProgramOf(raw)[u.sourceLine])
    ensures RelabelledFrom(ProgramOf(raw), kept, ProgramOf(raw)[u.sourceLine], u, v)
  {
    hide LawfulSource, LineMap, Collect, ProgramOf, Removable, TranslateTarget, IsAbsoluteBranch, Renames, Neat, KindOf,
        SameButTarget, ReplaceTokens, IntText, Lawful, Below;
    var p, i := ProgramOf(raw), u.sourceLine;
    SourceIsLawful(raw);
    var name := u.operands[|u.operands| - 1];
    RemovableIsLabel(p, name);
    TranslateIsBelow(|p|, kept, Collect(p)[name].line);
    var t := Rank(kept, |p|, Collect(p)[name].line);
    IntTextIsToken(t);
    RelabelledAgrees(raw, i, u, name, IntText(t));
  }

  lemma SourceIsLawful(raw: seq<string>)
    requires LawfulSource(raw)
    ensures Lawful(ProgramOf(raw))
  {}

  // ----- the whole program -----

  lemma SameButTargetComposes(a: LineKind, b: LineKind, c: LineKind)
    requires SameButTarget(a, b) && SameButTarget(b, c)
    ensures SameButTarget(a, c)
  {}

  lemma CompactThrough(raw: seq<string>, lines: seq<OutputLine>, g: nat)
    returns (x: Context, u: OutputLine, v: OutputLine)
    requires CompactFrom(raw, lines) && g < |lines|
    ensures Stages(raw, lines, g, x, u, v) && KeptOf(lines)[g] == u.sourceLine < |raw|
    ensures var p := ProgramOf(raw); var a := p[u.sourceLine];
      && !Dropped(p, a) && RelabelledFrom(p, KeptOf(lines), a, u, v) && Consistent(u) &&
          KindOf(u) == SubKind(Renames(p), a)
      && Consistent(lines[g]) && SubstitutedButTarget(Renames(p), a, KindOf(lines[g]))
  {
    hide CompactFrom, Adjustment, Retargeted, RelabelLine, Surviving, RelabelledLines, LineMap, Collect, ProgramOf,
        Consistent, Renames, Dropped, NamesRemoved, SameButTarget, KindOf, AdjustsFor;
    x, u, v := CompactLine(raw, lines, g);
    RelabelledLine(raw, lines, g, x, u, v);
    AdjustedShape(x, g, v);
    SameButTargetComposes(KindOf(u), KindOf(v), KindOf(lines[g]));
    StaysSubstituted(Renames(ProgramOf(raw)), ProgramOf(raw)[u.sourceLine], KindOf(lines[g]));
  }

  lemma StaysSubstituted(r: Substitution, a: LineKind, b: LineKind)
    requires SameButTarget(SubKind(r, a), b)
    ensures SubstitutedButTarget(r, a, b)
  {}

  /** The generated program is the source with names replaced and dropped lines gone. */
  lemma CompactIsRenamed(raw: seq<string>, lines: seq<OutputLine>)
    requires CompactFrom(raw, lines)
    ensures Renamed(ProgramOf(raw), KindsOf(lines), KeptOf(lines))
    ensures forall g :: 0 <= g < |lines| ==> Consistent(lines[g])
  {
    hide CompactFrom, Surviving, Consistent, Renames, Dropped, SubstitutedButTarget, KindOf, Stages, RelabelledFrom,
        ProgramOf;
    var p, kept := ProgramOf(raw), KeptOf(lines);
    CompactKept(raw, lines);
    CompactSource(raw, lines);
    forall g | 0 <= g < |lines|
      ensures !Dropped(p, p[kept[g]]) && SubstitutedButTarget(Renames(p), p[kept[g]], KindsOf(lines)[g])
      ensures Consistent(lines[g])
    {
      var x, u, v := CompactThrough(raw, lines, g);
    }
    forall i | 0 <= i < |p| && i !in kept ensures Dropped(p, p[i]) { MissingIsDropped(raw, i); }
  }

  lemma CompactSource(raw: seq<string>, lines: seq<OutputLine>)
    requires CompactFrom(raw, lines)
    ensures LawfulSource(raw) && Lawful(ProgramOf(raw))
  {}

  // ----- operations -----

  /** Data operands of an operation are neither generated names nor removable labels. */
  lemma DataIsOrdinary(p: seq<LineKind>, i: nat, j: nat)
    requires Lawful(p) && i < |p| && p[i].Instruction? && j < |DataOperands(p[i])|
    ensures !IsShort(p, DataOperands(p[i])[j]) && !Removable(p, DataOperands(p[i])[j])
  {
    hide Collect, Unique, NamesAreIdentifiers, RenamingOf, Acyclic, DefinesEndOutsideAliases;
    var a, t := p[i], DataOperands(p[i])[j];
    assert t == a.operands[j] && t in a.operands;
    assert !IsShort(p, t) by { OperandIsNotShort(p, t); }
    if Removable(p, t) {
      RemovableOnBranch(p, i, t);
    }
  }

  lemma RemovableOnBranch(p: seq<LineKind>, i: nat, t: string)
    requires Lawful(p) && i < |p| && p[i].Instruction? && t in p[i].operands && Removable(p, t)
    ensures IsBranch(Lower(p[i].mnemonic)) && IsAbsoluteBranch(Lower(p[i].mnemonic))
  {
    LawfulMnemonic(p, i);
  }

  lemma OperandIsNotShort(p: seq<LineKind>, t: string)
    requires Lawful(p) && IsOperand(p, t)
    ensures !IsShort(p, t)
  {}

  lemma LiteralsTransfer(p: seq<LineKind>, q: seq<LineKind>, kept: seq<nat>)
    requires Lawful(p) && Renamed(p, q, kept)
    ensures LiteralsAreWords(q)
  {
    hide Renamed, Renames, ReadQuantity, ParseInteger, IsIdentifier, IsShort, Removable, IsPlain, IsWord, Unreserved;
    forall t | ParseInteger(t).Some? ensures ReadQuantity(q, t) == Word(t) {
      LiteralIsWord(p, t);
      LiteralIsOrdinary(p, t);
      QuantityTransfers(p, q, kept, t);
    }
  }

  lemma LiteralIsOrdinary(p: seq<LineKind>, t: string)
    requires Lawful(p) && ParseInteger(t).Some?
    ensures !IsShort(p, t) && !Removable(p, t) && Sub(Renames(p), t) == t && Unreserved(p, Quantity, t)
  {
    hide ParseInteger, IsIdentifier, IsShort, Renames, Binding;
    LiteralIsUnbound(p, "alias", t);
    LiteralIsUnbound(p, "define", t);
    if IsShort(p, t) { ShortIsPlain(p, t); IdentifiersAreNotIntegers(t); }
    CollectEntries(p, t);
    if t in Collect(p) { IdentifiersAreNotIntegers(t); }
    SubCases(p, t);
  }

  lemma DataTransfers(p: seq<LineKind>, q: seq<LineKind>, kept: seq<nat>, g: nat)
    requires Lawful(p) && Renamed(p, q, kept) && g < |q| && p[kept[g]].Instruction?
    requires PlainOperation(p, p[kept[g]]) && !IsJump(Lower(p[kept[g]].mnemonic))
    ensures q[g].Instruction?
    ensures var m := Lower(p[kept[g]].mnemonic);
      ReadAll(q, m, DataOperands(q[g])) == MovedOperands(kept, |p|, ReadAll(p, m, DataOperands(p[kept[g]])))
  {
    hide Lawful, Read, Dropped, Renames, Removable, IsShort, Rank, IsBranch, RoleOf, ReadsPlainly, IsJump, PlainTarget;
    var a, b := p[kept[g]], q[g];
    var m := Lower(a.mnemonic);
    var r := Renames(p);
    assert |DataOperands(b)| == |DataOperands(a)|;
    forall j | 0 <= j < |DataOperands(a)|
      ensures Read(q, RoleOf(m, j), DataOperands(b)[j]) ==
          MovedOperand(kept, |p|, Read(p, RoleOf(m, j), DataOperands(a)[j]))
    {
      assert DataOperands(b)[j] == Sub(r, DataOperands(a)[j]) by { DataIsSubstituted(r, a, b, j); }
      DataIsOrdinary(p, kept[g], j);
      ReadTransfers(p, q, kept, RoleOf(m, j), DataOperands(a)[j]);
    }
  }

  lemma DataIsSubstituted(r: Substitution, a: LineKind, b: LineKind, j: nat)
    requires a.Instruction? && SubstitutedButTarget(r, a, b) && j < |DataOperands(a)|
    ensures b.Instruction? && |DataOperands(b)| == |DataOperands(a)| && DataOperands(b)[j] == Sub(r, DataOperands(a)[j])
  {
    if b.operands != SubAll(r, a.operands) {
      assert b.operands[..|b.operands| - 1][j] == b.operands[j];
    }
  }

  // ----- targets -----

  /** A relabelled branch goes where its label was. */
  lemma RelabelledTarget(p: seq<LineKind>, q: seq<LineKind>, kept: seq<nat>, g: nat, m: string, name: string)
    requires Lawful(p) && g < |kept| && Removable(p, name) && !IsRegister(name) && IsAbsoluteBranch(m)
    requires LiteralsAreWords(q) && name in Collect(p)
    ensures CarriedTarget(p, q, kept, g, m, name, IntText(Rank(kept, |p|, Collect(p)[name].line)))
  {
    hide Lawful, ReadQuantity, Rank, IntText, ParseInteger, Removable, Collect, IsRegister, IsAbsoluteBranch,
        IsRelative;
    RemovableResolves(p, name);
    IntTextParses(Rank(kept, |p|, Collect(p)[name].line));
    RelativeIsNotAbsolute(m);
  }

  lemma LabelOperandStays(p: seq<LineKind>, t: string)
    requires Lawful(p) && IsLabelSymbol(Collect(p), t)
    ensures Sub(Renames(p), t) == t
  {
    hide Renames;
    SubCases(p, t);
    DefineResolves(p, t);
  }

  /** A substituted operand that names a label stands for a line. */
  lemma GivenLabelIsLine(p: seq<LineKind>, q: seq<LineKind>, kept: seq<nat>, t: string)
    requires Lawful(p) && IsLabelSymbol(Collect(p), Sub(Renames(p), t)) && !IsShort(p, t)
    requires Sub(Renames(p), t) != t && Unreserved(p, Quantity, t)
    ensures ReadQuantity(p, t).Line?
  {
    hide Renames, NamesAreIdentifiers, Unique, PlainMnemonics, IsShort, Collect, DirectRegister, IsIndirect;
    var z := Sub(Renames(p), t);
    SubCases(p, t);
    DefineResolves(p, t);
    LabelIsSymbol(p, z);
    BindingIsSymbol(p, "alias", z);
    BindingIsSymbol(p, "define", z);
    BindingIsSymbol(p, "alias", t);
  }

  lemma OrdinaryTarget(p: seq<LineKind>, q: seq<LineKind>, kept: seq<nat>, g: nat, x: Context, u: OutputLine, t: string)
    requires Lawful(p) && Renamed(p, q, kept) && g < |kept| && AdjustsFor(x, p, kept)
    requires u.sourceLine == kept[g] && u.sourceLine !in x.relabelled && Adjustment(x, g, u).Ok?
    requires u.mnemonic.Some? && IsBranch(u.mnemonic.value) && u.operands != []
    requires u.operands[|u.operands| - 1] == Sub(Renames(p), t)
    requires IsOperand(p, t) && !Removable(p, t) && Unreserved(p, Quantity, t)
    ensures CarriedTarget(p, q, kept, g, u.mnemonic.value, t,
        NewToken(u.operands[|u.operands| - 1], Adjustment(x, g, u).value))
  {
    hide Renames, Renamed, IsShort, Collect, Removable, IsBranch, Adjustment, ReadQuantity, LineMap, IsOperand,
        NamesAreIdentifiers, CarriedTarget, IsLabelSymbol, Unreserved;
    OperandIsNotShort(p, t);
    QuantityTransfers(p, q, kept, t);
    LiteralsTransfer(p, q, kept);
    if IsLabelSymbol(x.table, t) { LabelOperandStays(p, t); }
    if IsLabelSymbol(x.table, Sub(Renames(p), t)) && Sub(Renames(p), t) != t { GivenLabelIsLine(p, q, kept, t); }
    AdjustedTarget(x, p, q, kept, g, u, t);
  }

  lemma NotRelabelled(raw: seq<string>, g: nat)
    requires g < |Surviving(raw)| && !NamesRemoved(RemovableLabels(ProgramOf(raw)), Surviving(raw)[g])
    ensures Surviving(raw)[g].sourceLine !in RelabelledLines(RemovableLabels(ProgramOf(raw)), Surviving(raw))
  {
    hide Surviving, RemovableLabels, NamesRemoved, ProgramOf;
    var s := Surviving(raw);
    SurvivingInRange(raw);
    forall line | line in s && line.sourceLine == s[g].sourceLine ensures line == s[g] {
      var h :| 0 <= h < |s| && s[h] == line;
      assert KeptOf(s)[h] == KeptOf(s)[g];
    }
  }

  lemma RemovableIsRelabelled(p: seq<LineKind>, i: nat, u: OutputLine)
    requires Lawful(p) && i < |p| && p[i].Instruction? && p[i].operands != []
    requires Consistent(u) && KindOf(u) == SubKind(Renames(p), p[i]) && Removable(p, p[i].operands[|p[i].operands| - 1])
    ensures NamesRemoved(RemovableLabels(p), u)
  {
    hide Renames, Lawful, Neat, IsAbsoluteBranch, IsBranch, Tokens, Classify;
    var t := p[i].operands[|p[i].operands| - 1];
    RemovableOnBranch(p, i, t);
    LabelOperandStays(p, t);
  }

  lemma CompactTarget(raw: seq<string>, lines: seq<OutputLine>, g: nat)
    requires CompactFrom(raw, lines) && Transparent(ProgramOf(raw))
    requires g < |lines| && Renamed(ProgramOf(raw), KindsOf(lines), KeptOf(lines))
    requires var a := ProgramOf(raw)[KeptOf(lines)[g]];
        a.Instruction? && IsOperation(a) && IsBranch(Lower(a.mnemonic)) && a.operands != []
    ensures var a, b := ProgramOf(raw)[KeptOf(lines)[g]], KindOf(lines[g]);
      && b.Instruction? && |b.operands| == |a.operands|
      && CarriedTarget(ProgramOf(raw), KindsOf(lines), KeptOf(lines), g, Lower(a.mnemonic),
          a.operands[|a.operands| - 1], b.operands[|b.operands| - 1])
  {
    hide CompactFrom, Renames, Renamed, Dropped, Removable, CarriedTarget, Surviving, ProgramOf, LineMap, Collect,
        RelabelLine, Retargeted, LiteralAdjustment, IsBranch, Neat, AdjustsFor, ReadsPlainly;
    var p, q, kept := ProgramOf(raw), KindsOf(lines), KeptOf(lines);
    var x, u, v := CompactThrough(raw, lines, g);
    CompactSource(raw, lines);
    AdjustedShape(x, g, v);
    var a := p[kept[g]];
    var t := a.operands[|a.operands| - 1];
    assert PlainOperation(p, a);
    if NamesRemoved(RemovableLabels(p), u) {
      assert v.sourceLine in x.relabelled;
      assert Adjustment(x, g, v) == Ok(None) by { SkipsRelabelled(x, g, v); }
      LiteralsTransfer(p, q, kept);
      RelabelledTarget(p, q, kept, g, u.mnemonic.value, t);
    } else {
      if Removable(p, t) { RemovableIsRelabelled(p, kept[g], u); }
      NotRelabelled(raw, g);
      OrdinaryTarget(p, q, kept, g, x, u, t);
    }
  }

  lemma SkipsRelabelled(x: Context, g: nat, v: OutputLine)
    requires v.mnemonic.Some? && IsAbsoluteBranch(v.mnemonic.value) && v.sourceLine in x.relabelled
    ensures Adjustment(x, g, v) == Ok(None)
  {}

  // ----- main results -----

  lemma SurvivorsOperate(r: Substitution, a: LineKind, b: LineKind)
    requires SubstitutedButTarget(r, a, b)
    ensures IsOperation(a) <==> IsOperation(b)
    ensures a.Instruction? ==> b.Instruction? && b.mnemonic == a.mnemonic && |b.operands| == |a.operands|
  {
    if IsDirective(a) { DirectivesDoNotBranch(a); }
    if IsDirective(b) { DirectivesDoNotBranch(b); }
  }

  lemma DroppedIsNoOperation(p: seq<LineKind>, k: LineKind)
    requires Dropped(p, k)
    ensures !IsOperation(k)
  {}

  /** Every compact build of a lawful, transparent source carries it over. */
  lemma CompactIsCarried(raw: seq<string>, lines: seq<OutputLine>)
    requires CompactFrom(raw, lines) && Transparent(ProgramOf(raw))
    ensures Carried(ProgramOf(raw), KindsOf(lines), KeptOf(lines))
  {
    hide CompactFrom, Dropped, ProgramOf, SubstitutedButTarget, KindOf, CarriedTarget, IsOperation, IsBranch, IsJump,
        Lawful, PlainOperation;
    var p, q, kept := ProgramOf(raw), KindsOf(lines), KeptOf(lines);
    CompactIsRenamed(raw, lines);
    CompactSource(raw, lines);
    forall i | 0 <= i < |p| && IsOperation(p[i]) ensures i in kept {
      if i !in kept { DroppedIsNoOperation(p, p[i]); }
    }
    forall g | 0 <= g < |q|
      ensures IsOperation(p[kept[g]]) <==> IsOperation(q[g])
      ensures IsOperation(q[g]) ==> CarriedOperation(p, q, kept, g)
    {
      SurvivorsOperate(Renames(p), p[kept[g]], q[g]);
      if IsOperation(q[g]) {
        OperationIsInstruction(p[kept[g]]);
        if !IsJump(Lower(p[kept[g]].mnemonic)) { DataTransfers(p, q, kept, g); }
        if IsBranch(Lower(p[kept[g]].mnemonic)) && p[kept[g]].operands != [] { CompactTarget(raw, lines, g); }
      }
    }
  }

  lemma OperationIsInstruction(k: LineKind)
    requires IsOperation(k)
    ensures k.Instruction?
  {}

  lemma CompactReads(raw: seq<string>, lines: seq<OutputLine>)
    requires CompactFrom(raw, lines)
    ensures Rebuilt(lines) == KindsOf(lines)
  {
    hide CompactFrom, Renamed, KindOf;
    CompactIsRenamed(raw, lines);
    CodeLines(lines);
  }

  /** A compact build of a lawful, line-blind source runs in lockstep with it, define and label lines aside. */
  lemma CompactRunsAlike<S>(raw: seq<string>, lines: seq<OutputLine>, e: Engine<S>, c: Config<S>, n: nat)
    requires CompactFrom(raw, lines) && Transparent(ProgramOf(raw)) && LineBlind(ProgramOf(raw), KeptOf(lines))
    ensures Run(Rebuilt(lines), e, Moved(KeptOf(lines), |raw|, c), n) ==
        Moved(KeptOf(lines), |raw|, Run(ProgramOf(raw), e, c, n))
  {
    hide CompactFrom, LineBlind, Carried, Transparent;
    CompactReads(raw, lines);
    CompactIsCarried(raw, lines);
    BlindRunMoves(ProgramOf(raw), KindsOf(lines), KeptOf(lines), e, c, n);
  }

  /** A lawful source that is not line-blind is told apart from its compact build in one step. */
  lemma CompactNeedsLineBlind(raw: seq<string>, lines: seq<OutputLine>)
    requires CompactFrom(raw, lines) && Transparent(ProgramOf(raw)) && !LineBlind(ProgramOf(raw), KeptOf(lines))
    ensures exists i: nat :: Diverges(ProgramOf(raw), Rebuilt(lines), KeptOf(lines), StartAt(i, |raw|))
  {
    hide CompactFrom, LineBlind, Carried, Diverges, Transparent;
    CompactReads(raw, lines);
    CompactIsCarried(raw, lines);
    var i := NotBlindDiverges(ProgramOf(raw), KindsOf(lines), KeptOf(lines));
  }

  // ----- deleted names -----

  /**
   An operand of a generated line is a substituted source operand, or a number; a removable label has become a
   number.
   */
  lemma SurvivingOperand(raw: seq<string>, lines: seq<OutputLine>, g: nat, j: nat)
    requires CompactFrom(raw, lines) && g < |lines| && j < |lines[g].operands|
    ensures KeptOf(lines)[g] < |raw|
    ensures var a, t := ProgramOf(raw)[KeptOf(lines)[g]], lines[g].operands[j];
      && a.Instruction? && j < |a.operands|
      && (ParseInteger(t).Some? ||
          (t == Sub(Renames(ProgramOf(raw)), a.operands[j]) && !Removable(ProgramOf(raw), a.operands[j])))
  {
    hide CompactFrom, Renames, Dropped, Removable, Surviving, ProgramOf, Collect, ReplaceLastToken, ParseInteger, Neat,
        Stages, NamesRemoved, IntText, Tokens, Classify, Rank;
    var p := ProgramOf(raw);
    var x, u, v := CompactThrough(raw, lines, g);
    CompactSource(raw, lines);
    StagesEnd(raw, lines, g, x, u, v);
    AdjustedShape(x, g, v);
    var target := Adjustment(x, g, v).value;
    var a, last := p[u.sourceLine], |v.operands| - 1;
    if target.Some? { IntTextParses(target.value); }
    if NamesRemoved(RemovableLabels(p), u) {
      IntTextParses(Rank(KeptOf(lines), |p|, Collect(p)[a.operands[last]].line));
    }
    if Removable(p, a.operands[j]) {
      RemovableIsLastOperand(p, u.sourceLine, j);
      RemovableIsRelabelled(p, u.sourceLine, u);
    }
    if j < last { FrontOperands(u, v, lines[g], j); }
  }

  lemma StagesEnd(raw: seq<string>, lines: seq<OutputLine>, g: nat, x: Context, u: OutputLine, v: OutputLine)
    requires g < |lines| && Stages(raw, lines, g, x, u, v)
    ensures Adjustment(x, g, v).Ok? && lines[g] == Retargeted(v, Adjustment(x, g, v).value)
  {}

  lemma RemovableIsLastOperand(p: seq<LineKind>, i: nat, j: nat)
    requires Lawful(p) && i < |p| && p[i].Instruction? && j < |p[i].operands| && Removable(p, p[i].operands[j])
    ensures j == |p[i].operands| - 1
  {}

  lemma FrontOperands(u: OutputLine, v: OutputLine, w: OutputLine, j: nat)
    requires Consistent(u) && Consistent(v) && Consistent(w)
    requires SameButTarget(KindOf(u), KindOf(v)) && SameButTarget(KindOf(v), KindOf(w))
    requires |u.operands| == |v.operands| == |w.operands| && j < |u.operands| - 1
    ensures w.operands[j] == u.operands[j]
  {
    hide Neat, Tokens, Classify, IsBranch;
    var n := |u.operands| - 1;
    assert u.operands[..n][j] == u.operands[j] && v.operands[..n][j] == v.operands[j] &&
        w.operands[..n][j] == w.operands[j];
  }

  /** No generated instruction mentions a deleted name: an inlined define, a renamed alias or a removed label. */
  lemma NoDeletedNameSurvives(raw: seq<string>, lines: seq<OutputLine>, g: nat, j: nat)
    requires CompactFrom(raw, lines) && g < |lines| && j < |lines[g].operands|
    ensures var p, t := ProgramOf(raw), lines[g].operands[j];
      !Removable(p, t) && t !in RenamingOf(p).defines && t !in RenamingOf(p).aliases
  {
    hide CompactFrom, Renames, Removable, ProgramOf, Collect, ParseInteger, Lawful, RenamingOf;
    var p, t := ProgramOf(raw), lines[g].operands[j];
    SurvivingOperand(raw, lines, g, j);
    CompactSource(raw, lines);
    if ParseInteger(t).Some? {
      LiteralIsNoName(p, t);
    } else {
      SubIsNoDeletedName(p, ProgramOf(raw)[KeptOf(lines)[g]].operands[j]);
    }
  }

  /** A label survives only if an instruction other than an absolute branch mentions it. */
  lemma SurvivingLabelIsNeeded(raw: seq<string>, lines: seq<OutputLine>, g: nat, name: string) returns (i: nat)
    requires CompactFrom(raw, lines) && g < |lines| && KindOf(lines[g]) == Label(name)
    ensures i < |raw| && ProgramOf(raw)[i].Instruction?
    ensures name in ProgramOf(raw)[i].operands && !IsAbsoluteBranch(ProgramOf(raw)[i].mnemonic)
  {
    hide CompactFrom, KindOf, IsAbsoluteBranch, Collect, NamesAreIdentifiers, Unique, PlainMnemonics, ProgramOf;
    var p, kept := ProgramOf(raw), KeptOf(lines);
    CompactIsRenamed(raw, lines);
    CompactSource(raw, lines);
    assert p[kept[g]] == Label(name) && !Removable(p, name);
    LabelDeclares(p, kept[g], name);
    i :| 0 <= i < |p| && p[i].Instruction? && name in p[i].operands && !IsAbsoluteBranch(p[i].mnemonic);
  }

  lemma LabelDeclares(p: seq<LineKind>, i: nat, name: string)
    requires NamesAreIdentifiers(p) && Unique(p) && i < |p| && p[i] == Label(name)
    ensures IsLabelSymbol(Collect(p), name)
  {
    SymbolIsDeclared(p, i);
  }

  lemma LiteralIsNoName(p: seq<LineKind>, t: string)
    requires Lawful(p) && ParseInteger(t).Some?
    ensures !Removable(p, t) && t !in RenamingOf(p).defines && t !in RenamingOf(p).aliases
  {
    hide ParseInteger, Lawful, PrivateAliases, IsIdentifier;
    assert NamesAreIdentifiers(p) by { LawfulNames(p); }
    CollectEntries(p, t);
    if t in Collect(p) { IdentifiersAreNotIntegers(t); }
    NamesAreSymbols(p, t);
  }

  lemma LawfulNames(p: seq<LineKind>)
    requires Lawful(p)
    ensures NamesAreIdentifiers(p) && Acyclic(Collect(p))
  {}

  lemma NamesAreSymbols(p: seq<LineKind>, t: string)
    ensures t in RenamingOf(p).defines ==> t in RawDefines(Collect(p)) && t in Collect(p)
    ensures t in RenamingOf(p).aliases ==> IsAliasSymbol(p, t) && IsPrivate(Collect(p), t)
  {
    PrivateAliasesAre(p, t);
  }

  lemma SubIsNoDeletedName(p: seq<LineKind>, s: string)
    requires Lawful(p) && !Removable(p, s)
    ensures var t := Sub(Renames(p), s); !Removable(p, t) && t !in RenamingOf(p).defines && t !in RenamingOf(p).aliases
  {
    hide Renames, Collect, RawDefines, NamesAreIdentifiers, Unique, PlainMnemonics;
    var t := Sub(Renames(p), s);
    SubCases(p, s);
    NamesAreSymbols(p, t);
    if Removable(p, t) { RemovableOrigin(p, s); }
    if s in Defines(Collect(p)) { DefineEnds(p, s); }
  }

  lemma DefineEnds(p: seq<LineKind>, s: string)
    requires Lawful(p) && s in Defines(Collect(p))
    ensures Defines(Collect(p))[s] !in RawDefines(Collect(p))
    ensures !IsAliasSymbol(p, Defines(Collect(p))[s])
  {
    hide Collect, ResolveDefine, NamesAreIdentifiers, Unique, PlainMnemonics;
    AcyclicDefinesResolve(Collect(p), s);
  }
}
