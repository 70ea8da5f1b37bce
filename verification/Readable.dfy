/** Readable builds: blank and comment lines go, branches are relinked, everything else stays. */
module Readable {
  import opened Prelude
  import opened Text
  import opened Literals
  import opened Registers
  import opened Symbols
  import opened Machine
  import opened Relinking
  import opened Environment
  import opened Carrying
  import opened Words
  import opened Lines
  import opened Adjusting

  /** The program that a list of physical lines parses to. */
  function ProgramOf(raw: seq<string>): (p: seq<LineKind>)
    ensures |p| == |raw|
  {
    Kinds(ParseLines(raw))
  }

  function ContextOf(p: seq<LineKind>, output: seq<OutputLine>, relabelled: set<nat>): Context
    requires forall g :: 0 <= g < |output| ==> output[g].sourceLine < |p|
  {
    Context(Collect(p), LineMap(|p|, KeptOf(output)), |output| != |p|, relabelled)
  }

  function ReadableLines(raw: seq<string>): Result<Adjusted, BuildError> {
    KeptLinesInRange(raw);
    AdjustAll(ContextOf(ProgramOf(raw), KeptLines(raw), {}), KeptLines(raw))
  }

  predicate QuotesClosed(raw: seq<string>) { forall i :: 0 <= i < |raw| ==> Balanced(CodePart(raw[i])) }

  predicate NoNewlines(raw: seq<string>) { forall i :: 0 <= i < |raw| ==> '\n' !in raw[i] }

  // ----- lines that stay -----

  lemma KeptOfAppend(a: seq<OutputLine>, b: seq<OutputLine>)
    ensures KeptOf(a + b) == KeptOf(a) + KeptOf(b)
  {}

  lemma {:induction false} KeptLinesInRange(raw: seq<string>)
    ensures forall g :: 0 <= g < |KeptLines(raw)| ==> KeptLines(raw)[g].sourceLine < |raw|
    ensures Increasing(KeptOf(KeptLines(raw)), |raw|)
  {
    hide OutputOf;
    if raw != [] {
      var n := |raw| - 1;
      KeptLinesInRange(raw[..n]);
      KeptOfAppend(KeptLines(raw[..n]), OutputOf(n, raw[n]));
    }
  }

  /** The output line made from source line `i`. */
  ghost predicate KeptLine(raw: seq<string>, i: nat, line: OutputLine)
    requires i < |raw|
  {
    && line.sourceLine == i && line.text == Trim(CodePart(raw[i])) && line.text != []
    && line.mnemonic == MnemonicOf(ParseLine(raw[i]).kind) && line.operands == OperandsOf(ParseLine(raw[i]).kind)
  }

  lemma {:induction false} KeptLinesAre(raw: seq<string>, g: nat)
    requires g < |KeptLines(raw)|
    ensures KeptLines(raw)[g].sourceLine < |raw| && KeptLine(raw, KeptLines(raw)[g].sourceLine, KeptLines(raw)[g])
  {
    var n := |raw| - 1;
    if g < |KeptLines(raw[..n])| { KeptLinesAre(raw[..n], g); }
  }

  lemma NoOutputIsBlank(index: nat, raw: string)
    requires OutputOf(index, raw) == []
    ensures Trim(CodePart(raw)) == []
  {}

  lemma {:induction false} DroppedIsBlank(raw: seq<string>, i: nat)
    requires i < |raw| && i !in KeptOf(KeptLines(raw))
    ensures Trim(CodePart(raw[i])) == []
  {
    hide OutputOf, CodePart, Trim, KeptOf;
    var n := |raw| - 1;
    var last := OutputOf(n, raw[n]);
    KeptOfAppend(KeptLines(raw[..n]), last);
    if i < n {
      DroppedIsBlank(raw[..n], i);
    } else {
      KeptOfOne(last);
      NoOutputIsBlank(n, raw[n]);
    }
  }

  lemma KeptOfOne(output: seq<OutputLine>)
    ensures |output| == 1 ==> output[0].sourceLine in KeptOf(output)
  {
    assert |output| == 1 ==> KeptOf(output)[0] == output[0].sourceLine;
  }

  lemma CodeIsCode(line: string)
    requires Balanced(CodePart(line)) && '\n' !in line
    ensures var code := CodePart(line);
      && CommentStart(Outside, code).None? && '\n' !in code
      && Tokenize(Trim(code)) == Tokenize(code)
      && (if Trim(code) == [] then Tokenize(code) == [] else Clean(Trim(code)))
  {
    CodeHasNoComment(Outside, line);
    TrimKeeps(CodePart(line));
  }

  /** A kept line reads as its source line. */
  lemma KeptIsConsistent(raw: seq<string>, i: nat, line: OutputLine)
    requires i < |raw| && KeptLine(raw, i, line) && Balanced(CodePart(raw[i])) && '\n' !in raw[i]
    ensures Consistent(line) && Clean(line.text) && KindOf(line) == ProgramOf(raw)[i]
  {
    CodeIsCode(raw[i]);
    CleanIsNeat(line.text);
  }

  lemma BlankIsEmpty(raw: seq<string>, i: nat)
    requires i < |raw| && Balanced(CodePart(raw[i])) && '\n' !in raw[i] && Trim(CodePart(raw[i])) == []
    ensures ProgramOf(raw)[i] == Empty
  {
    CodeIsCode(raw[i]);
  }

  /** Exactly the lines with code are kept. */
  lemma KeptExactly(raw: seq<string>, i: nat)
    requires QuotesClosed(raw) && NoNewlines(raw) && i < |raw|
    ensures i in KeptOf(KeptLines(raw)) <==> ProgramOf(raw)[i] != Empty
  {
    if i in KeptOf(KeptLines(raw)) {
      var g :| 0 <= g < |KeptLines(raw)| && KeptOf(KeptLines(raw))[g] == i;
      KeptLinesAre(raw, g);
      KeptIsConsistent(raw, i, KeptLines(raw)[g]);
      CodeHasTokens(KeptLines(raw)[g].text);
    } else {
      DroppedIsBlank(raw, i);
      BlankIsEmpty(raw, i);
    }
  }

  lemma CodeHasTokens(s: string)
    requires Clean(s)
    ensures Classify(Tokenize(s)) != Empty
  {
    if Tokenize(s) == [] { NoTokensIsBlank(s); }
  }

  // ----- the same program, up to branch targets -----

  /** `b` is `a` up to the last operand of a branch. */
  predicate SameButTarget(a: LineKind, b: LineKind) {
    || b == a
    || (a.Instruction? && b.Instruction? && b.mnemonic == a.mnemonic && IsBranch(Lower(a.mnemonic)) &&
        |b.operands| == |a.operands| > 0
        && b.operands[..|b.operands| - 1] == a.operands[..|a.operands| - 1])
  }

  ghost predicate Thinned(p: seq<LineKind>, q: seq<LineKind>, kept: seq<nat>) {
    && Increasing(kept, |p|) && |kept| == |q|
    && (forall i :: 0 <= i < |p| && i !in kept ==> p[i] == Empty)
    && (forall g :: 0 <= g < |q| ==> SameButTarget(p[kept[g]], q[g]))
  }

  lemma DirectivesDoNotBranch(k: LineKind)
    requires IsDirective(k)
    ensures !IsBranch(Lower(k.mnemonic))
  {
    assert "alias"[0] == 'a' && "define"[0] == 'd';
    assert Lower(k.mnemonic)[..1] == [LowerChar(k.mnemonic[0])];
  }

  lemma SameButTargetBinds(a: LineKind, b: LineKind, directive: string, name: string)
    requires SameButTarget(a, b)
    ensures Binds(b, directive, name) <==> Binds(a, directive, name)
    ensures Binds(a, directive, name) ==> b == a
    ensures b == Label(name) <==> a == Label(name)
    ensures IsOperation(a) <==> IsOperation(b)
  {
    if IsDirective(a) { DirectivesDoNotBranch(a); }
    if IsDirective(b) { DirectivesDoNotBranch(b); }
  }

  lemma ThinnedBinding(p: seq<LineKind>, q: seq<LineKind>, kept: seq<nat>, directive: string, name: string)
    requires Thinned(p, q, kept)
    ensures Binding(q, directive, name) == Binding(p, directive, name)
  {
    hide Binds, SameButTarget;
    forall g | 0 <= g < |q| ensures Binds(q[g], directive, name) <==> Binds(p[kept[g]], directive, name) {
      SameButTargetBinds(p[kept[g]], q[g], directive, name);
    }
    assert !Binds(Empty, directive, name) by { EmptyBindsNothing(directive, name); }
    var g := BindingMoves(p, q, kept, directive, name, name);
    if Binding(p, directive, name).Some? { SameButTargetBinds(p[kept[g]], q[g], directive, name); }
  }

  lemma EmptyBindsNothing(directive: string, name: string)
    ensures !Binds(Empty, directive, name)
  {}

  lemma {:induction false} FollowSame(p: seq<LineKind>, q: seq<LineKind>, directive: string, token: string, hops: nat)
    requires forall t :: Binding(q, directive, t) == Binding(p, directive, t)
    ensures Follow(q, directive, token, hops) == Follow(p, directive, token, hops)
    decreases hops
  {
    if hops > 0 && Binding(p, directive, token).Some? {
      FollowSame(p, q, directive, Binding(p, directive, token).value, hops - 1);
    }
  }

  /** Operands mean the same, but for where the lines have moved. */
  lemma ThinnedResolve(p: seq<LineKind>, q: seq<LineKind>, kept: seq<nat>, token: string)
    requires Thinned(p, q, kept)
    ensures Resolve(q, token) == MovedOperand(kept, |p|, Resolve(p, token))
  {
    hide Binding, Follow, LabelLine, SameButTarget, Rank;
    forall directive, t ensures Binding(q, directive, t) == Binding(p, directive, t) {
      ThinnedBinding(p, q, kept, directive, t);
    }
    var word := Follow(p, "alias", token, HOPS);
    FollowSame(p, q, "alias", token, HOPS);
    FollowSame(p, q, "define", word, HOPS);
    var name := Follow(p, "define", word, HOPS);
    forall g | 0 <= g < |q| ensures q[g] == Label(name) <==> p[kept[g]] == Label(name) {
      SameButTargetBinds(p[kept[g]], q[g], "alias", name);
    }
    LabelMoves(p, q, kept, name);
  }

  /** Reading an operand depends only on where the aliases end and what the numbers are. */
  lemma ReadMoves(p: seq<LineKind>, q: seq<LineKind>, kept: seq<nat>, n: nat, role: Role, token: string)
    requires forall t :: Follow(q, "alias", t, HOPS) == Follow(p, "alias", t, HOPS)
    requires forall t :: Resolve(q, t) == MovedOperand(kept, n, Resolve(p, t))
    ensures Read(q, role, token) == MovedOperand(kept, n, Read(p, role, token))
  {
    hide Follow, Resolve, Rank, ReadDevice, ReadQuantity;
    var name := Follow(p, "alias", token, HOPS);
    match role
    case Quantity => QuantityMoves(p, q, kept, n, token);
    case Device => DeviceMoves(p, q, kept, n, name);
    case Logic => QuantityMoves(p, q, kept, n, name);
    case Mode =>
  }

  lemma DeviceMoves(p: seq<LineKind>, q: seq<LineKind>, kept: seq<nat>, n: nat, name: string)
    requires forall t :: Follow(q, "alias", t, HOPS) == Follow(p, "alias", t, HOPS)
    requires forall t :: Resolve(q, t) == MovedOperand(kept, n, Resolve(p, t))
    ensures ReadDevice(q, name) == MovedOperand(kept, n, ReadDevice(p, name))
  {
    hide Follow, Resolve, Rank, ReadPin, DevicePart, ConnectionPart;
    PinMoves(p, q, kept, n, DevicePart(name));
    PinMoves(p, q, kept, n, name);
  }

  lemma PinMoves(p: seq<LineKind>, q: seq<LineKind>, kept: seq<nat>, n: nat, name: string)
    requires forall t :: Follow(q, "alias", t, HOPS) == Follow(p, "alias", t, HOPS)
    requires forall t :: Resolve(q, t) == MovedOperand(kept, n, Resolve(p, t))
    ensures ReadPin(q, name) == MovedOperand(kept, n, ReadPin(p, name))
  {
    hide Follow, Resolve, Rank, ReadQuantity, IsPin;
    QuantityMoves(p, q, kept, n, name);
  }

  lemma QuantityMoves(p: seq<LineKind>, q: seq<LineKind>, kept: seq<nat>, n: nat, token: string)
    requires Follow(q, "alias", token, HOPS) == Follow(p, "alias", token, HOPS)
    requires Resolve(q, token) == MovedOperand(kept, n, Resolve(p, token))
    ensures ReadQuantity(q, token) == MovedOperand(kept, n, ReadQuantity(p, token))
  {
    hide Follow, Resolve, Rank, IsIndirect, DirectRegister;
  }

  lemma ThinnedRead(p: seq<LineKind>, q: seq<LineKind>, kept: seq<nat>, role: Role, token: string)
    requires Thinned(p, q, kept)
    ensures Read(q, role, token) == MovedOperand(kept, |p|, Read(p, role, token))
  {
    hide Binding, Follow, Resolve, Read, Thinned;
    forall t ensures Follow(q, "alias", t, HOPS) == Follow(p, "alias", t, HOPS) {
      forall directive, u
        ensures Binding(q, directive, u) == Binding(p, directive, u)
      {
        ThinnedBinding(p, q, kept, directive, u);
      }
      FollowSame(p, q, "alias", t, HOPS);
    }
    forall t ensures Resolve(q, t) == MovedOperand(kept, |p|, Resolve(p, t)) { ThinnedResolve(p, q, kept, t); }
    ReadMoves(p, q, kept, |p|, role, token);
  }

  lemma ThinnedQuantity(p: seq<LineKind>, q: seq<LineKind>, kept: seq<nat>, token: string)
    requires Thinned(p, q, kept)
    ensures ReadQuantity(q, token) == MovedOperand(kept, |p|, ReadQuantity(p, token))
  {
    hide ReadQuantity, Thinned;
    ThinnedRead(p, q, kept, Quantity, token);
  }

  // ----- literals name no symbol -----

  lemma LiteralIsUnbound(p: seq<LineKind>, directive: string, t: string)
    requires NamesAreIdentifiers(p) && ParseInteger(t).Some?
    ensures Binding(p, directive, t) == None && LabelLine(p, t) == None
  {
    hide IsIdentifier, ParseInteger;
    forall i | 0 <= i < |p| ensures !Binds(p[i], directive, t) && p[i] != Label(t) {
      if Binds(p[i], directive, t) || p[i] == Label(t) {
        assert Declared(p[i], i).Some? && Declared(p[i], i).value.0 == t;
        IdentifiersAreNotIntegers(t);
      }
    }
    NoBinding(p, directive, t);
    NoLabelLine(p, t);
  }

  lemma LiteralIsWord(p: seq<LineKind>, t: string)
    requires NamesAreIdentifiers(p) && ParseInteger(t).Some?
    ensures ReadQuantity(p, t) == Word(t)
  {
    hide ParseInteger, Binding, NamesAreIdentifiers, LabelLine, IsIndirect, DirectRegister;
    LiteralIsUnbound(p, "alias", t);
    LiteralIsUnbound(p, "define", t);
    LiteralIsNotReserved(t);
  }

  // ----- the build -----

  lemma KeptAgrees(raw: seq<string>, g: nat)
    requires QuotesClosed(raw) && NoNewlines(raw) && g < |KeptLines(raw)|
    ensures var line := KeptLines(raw)[g];
      line.sourceLine < |raw| && Consistent(line) && Clean(line.text) && KindOf(line) == ProgramOf(raw)[line.sourceLine]
  {
    KeptLinesAre(raw, g);
    KeptIsConsistent(raw, KeptLines(raw)[g].sourceLine, KeptLines(raw)[g]);
  }

  /** An adjusted line keeps its shape; only the target of a branch is new. */
  lemma AdjustedShape(x: Context, g: nat, line: OutputLine)
    requires Consistent(line) && Adjustment(x, g, line).Ok?
    ensures var target := Adjustment(x, g, line).value;
      var built := Retargeted(line, target);
      && Consistent(built) && built.sourceLine == line.sourceLine && SameButTarget(KindOf(line), KindOf(built))
      && (Clean(line.text) ==> Clean(built.text))
      && |built.operands| == |line.operands|
      && (line.operands != [] ==>
          built.operands[|built.operands| - 1] == NewToken(line.operands[|line.operands| - 1], target))
  {
    hide Neat, Clean, IntText, LiteralAdjustment, IsLabelSymbol, Tokens, Classify, ReplaceLastToken, ParseInteger;
    var target := Adjustment(x, g, line).value;
    if target.Some? {
      RetargetedKind(line, target.value);
    }
  }

  /** A surviving operation is carried over. */
  lemma OperationIsCarried(x: Context, p: seq<LineKind>, q: seq<LineKind>, kept: seq<nat>, g: nat, line: OutputLine)
    requires Thinned(p, q, kept) && AdjustsFor(x, p, kept) && x.relabelled == {} && NamesAreIdentifiers(p)
    requires g < |kept| && line.sourceLine == kept[g] && Consistent(line) && KindOf(line) == p[kept[g]]
    requires IsOperation(q[g])
    requires Adjustment(x, g, line).Ok? && q[g] == KindOf(Retargeted(line, Adjustment(x, g, line).value))
    ensures CarriedOperation(p, q, kept, g)
  {
    hide Read, ReadQuantity, Adjustment, Retargeted, NamesAreIdentifiers, CarriedTarget, Neat, Rank, AdjustsFor, Tokens,
        Classify, ParseInteger, RoleOf;
    AdjustedShape(x, g, line);
    forall role, t
      ensures Read(q, role, t) == MovedOperand(kept, |p|, Read(p, role, t))
    {
      ThinnedRead(p, q, kept, role, t);
    }
    forall t
      ensures ReadQuantity(q, t) == MovedOperand(kept, |p|, ReadQuantity(p, t))
    {
      ThinnedQuantity(p, q, kept, t);
    }
    forall t | ParseInteger(t).Some? ensures ReadQuantity(q, t) == Word(t) { LiteralIsWord(p, t); }
    var a := p[kept[g]];
    if IsBranch(Lower(a.mnemonic)) && a.operands != [] {
      AdjustedTarget(x, p, q, kept, g, line, a.operands[|a.operands| - 1]);
    }
  }

  ghost predicate BuiltFrom(raw: seq<string>, lines: seq<OutputLine>) {
    && QuotesClosed(raw) && NoNewlines(raw) && NamesAreIdentifiers(ProgramOf(raw))
    && ReadableLines(raw).Ok? && ReadableLines(raw).value.lines == lines
  }

  lemma BuiltLine(raw: seq<string>, lines: seq<OutputLine>, g: nat) returns (x: Context, line: OutputLine)
    requires BuiltFrom(raw, lines) && g < |lines|
    ensures AdjustsFor(x, ProgramOf(raw), KeptOf(lines)) && x.relabelled == {}
    ensures g < |KeptLines(raw)| && line == KeptLines(raw)[g] && line.sourceLine == KeptOf(lines)[g] < |raw|
    ensures Consistent(line) && KindOf(line) == ProgramOf(raw)[line.sourceLine] && Clean(line.text)
    ensures Adjustment(x, g, line).Ok? && lines[g] == Retargeted(line, Adjustment(x, g, line).value)
  {
    hide Adjustment, Consistent, Clean, Increasing;
    KeptLinesInRange(raw);
    KeptAgrees(raw, g);
    x := ContextOf(ProgramOf(raw), KeptLines(raw), {});
    line := KeptLines(raw)[g];
    AdjustedLine(x, KeptLines(raw), |lines|, g);
    SameKept(raw, lines);
  }

  lemma SameKept(raw: seq<string>, lines: seq<OutputLine>)
    requires BuiltFrom(raw, lines)
    ensures KeptOf(lines) == KeptOf(KeptLines(raw)) && Increasing(KeptOf(lines), |raw|)
  {
    hide AdjustUpTo, KeptLines, QuotesClosed, NoNewlines, NamesAreIdentifiers, LineMap, KeptOf, ProgramOf;
    KeptLinesInRange(raw);
    AdjustedKept(ContextOf(ProgramOf(raw), KeptLines(raw), {}), KeptLines(raw));
  }

  lemma AdjustedKept(x: Context, output: seq<OutputLine>)
    requires AdjustAll(x, output).Ok?
    ensures KeptOf(AdjustAll(x, output).value.lines) == KeptOf(output)
  {
    hide Adjustment;
    forall g | 0 <= g < |output| ensures AdjustAll(x, output).value.lines[g].sourceLine == output[g].sourceLine {
      AdjustedLine(x, output, |output|, g);
    }
  }

  lemma BuildThins(raw: seq<string>, lines: seq<OutputLine>)
    requires BuiltFrom(raw, lines)
    ensures Thinned(ProgramOf(raw), KindsOf(lines), KeptOf(lines))
    ensures forall g :: 0 <= g < |lines| ==> Consistent(lines[g]) && Clean(lines[g].text)
  {
    hide Adjustment, SameButTarget, Consistent, Clean, Retargeted, KindOf, ReadableLines, ProgramOf, BuiltFrom;
    SameKept(raw, lines);
    forall g | 0 <= g < |lines|
      ensures SameButTarget(ProgramOf(raw)[KeptOf(lines)[g]], KindsOf(lines)[g]) && Consistent(lines[g])
      ensures Clean(lines[g].text)
    {
      var x, line := BuiltLine(raw, lines, g);
      AdjustedShape(x, g, line);
    }
    forall i | 0 <= i < |raw| && i !in KeptOf(lines) ensures ProgramOf(raw)[i] == Empty {
      DroppedIsEmpty(raw, lines, i);
    }
  }

  lemma DroppedIsEmpty(raw: seq<string>, lines: seq<OutputLine>, i: nat)
    requires BuiltFrom(raw, lines) && i < |raw| && i !in KeptOf(lines)
    ensures ProgramOf(raw)[i] == Empty
  {
    hide ReadableLines, ProgramOf;
    SameKept(raw, lines);
    DroppedIsBlank(raw, i);
    BlankIsEmpty(raw, i);
  }

  // ----- the same names -----

  predicate SameValues(a: Table, b: Table) {
    a.Keys == b.Keys && forall name :: name in a ==> b[name].value == a[name].value
  }

  /** Whether a symbol's values run in a cycle depends on the values alone. */
  lemma {:induction false} SameCycle(a: Table, b: Table, current: string, seen: set<string>)
    requires SameValues(a, b) && current in a
    ensures FindsCycle(b, current, seen) == FindsCycle(a, current, seen)
    decreases |a.Keys - seen|
  {
    if a[current].value.Some? && a[current].value.value in a && current !in seen {
      Shrinks(a.Keys - seen, a.Keys - (seen + {current}), current);
      SameCycle(a, b, a[current].value.value, seen + {current});
    }
  }

  lemma SameValuesSameCycles(a: Table, b: Table)
    requires SameValues(a, b) && Acyclic(a)
    ensures Acyclic(b)
  {
    hide FindsCycle;
    forall name | name in b ensures !FindsCycle(b, name, {}) { SameCycle(a, b, name, {}); }
  }

  lemma SameButTargetDeclares(a: LineKind, b: LineKind, i: nat, j: nat)
    requires SameButTarget(a, b)
    ensures match Declared(a, i)
      case None => Declared(b, j) == None
      case Some((name, symbol)) => Declared(b, j) == Some((name, symbol.(line := j)))
  {
    assert "alias"[0] == 'a' && "define"[0] == 'd';
    if a.Instruction? && a.mnemonic != [] { assert Lower(a.mnemonic)[..1] == [LowerChar(a.mnemonic[0])]; }
  }

  lemma ThinnedPrefix(p: seq<LineKind>, q: seq<LineKind>, kept: seq<nat>)
    requires Thinned(p, q, kept) && p != []
    ensures var n, m := |p| - 1, |q| - 1;
      if n in kept then m >= 0 && kept[m] == n && SameButTarget(p[n], q[m]) && Thinned(p[..n], q[..m], kept[..m])
      else p[n] == Empty && Thinned(p[..n], q, kept)
  {
    hide SameButTarget;
    var n := |p| - 1;
    if n in kept {
      assert kept[|q| - 1] == n;
    }
  }

  /** A thinned program declares the same names with the same values. */
  lemma {:induction false} ThinnedNames(p: seq<LineKind>, q: seq<LineKind>, kept: seq<nat>)
    requires Thinned(p, q, kept)
    ensures SameValues(Collect(p), Collect(q))
    ensures NamesAreIdentifiers(p) ==> NamesAreIdentifiers(q)
  {
    hide SameButTarget, IsIdentifier, Declared, Thinned;
    ThinnedLength(p, q, kept);
    if p != [] {
      var n, m := |p| - 1, |q| - 1;
      ThinnedPrefix(p, q, kept);
      if n in kept {
        ThinnedNames(p[..n], q[..m], kept[..m]);
        SameButTargetDeclares(p[n], q[m], n, m);
        NamesOfPrefix(p);
        NamesOfPrefix(q);
      } else {
        ThinnedNames(p[..n], q, kept);
        NamesOfPrefix(p);
        assert Declared(Empty, n) == None by { EmptyDeclaresNothing(n); }
      }
    }
  }

  lemma ThinnedLength(p: seq<LineKind>, q: seq<LineKind>, kept: seq<nat>)
    requires Thinned(p, q, kept)
    ensures |q| == |kept| <= |p|
  {
    if q != [] { KeptAtMost(kept, |p|, 0); }
  }

  lemma EmptyDeclaresNothing(i: nat)
    ensures Declared(Empty, i) == None
  {}

  lemma NamesOfPrefix(p: seq<LineKind>)
    requires p != []
    ensures var n := |p| - 1; NamesAreIdentifiers(p) <==>
      NamesAreIdentifiers(p[..n]) && (Declared(p[n], n).Some? ==> IsIdentifier(Declared(p[n], n).value.0))
  {
    hide Declared, IsIdentifier;
    var n := |p| - 1;
    assert forall i :: 0 <= i < n ==> p[..n][i] == p[i];
  }

  /** Every readable build carries its source over. */
  lemma ReadableIsCarried(raw: seq<string>, lines: seq<OutputLine>)
    requires BuiltFrom(raw, lines)
    ensures Carried(ProgramOf(raw), KindsOf(lines), KeptOf(lines))
  {
    hide Adjustment, SameButTarget, Consistent, Clean, Retargeted, KindOf, ReadableLines, CarriedOperation, IsOperation,
        NamesAreIdentifiers;
    var p, q, kept := ProgramOf(raw), KindsOf(lines), KeptOf(lines);
    BuildThins(raw, lines);
    forall g | 0 <= g < |q| ensures IsOperation(p[kept[g]]) <==> IsOperation(q[g]) {
      SameButTargetBinds(p[kept[g]], q[g], "alias", "");
    }
    forall g | 0 <= g < |q| && IsOperation(q[g]) ensures CarriedOperation(p, q, kept, g) {
      var x, line := BuiltLine(raw, lines, g);
      OperationIsCarried(x, p, q, kept, g, line);
    }
    EmptyIsNoOperation();
  }

  lemma EmptyIsNoOperation()
    ensures !IsOperation(Empty)
  {}

  // ----- main results -----

  /** The program read back from a build. */
  function Rebuilt(lines: seq<OutputLine>): seq<LineKind> { ProgramOf(SourceLines(CodeOf(lines))) }

  lemma BuildReads(raw: seq<string>, lines: seq<OutputLine>)
    requires BuiltFrom(raw, lines)
    ensures Rebuilt(lines) == KindsOf(lines) && SourceLines(CodeOf(lines)) == Texts(lines)
  {
    hide BuiltFrom, KindOf, Clean, Thinned;
    BuildThins(raw, lines);
    CodeLines(lines);
  }

  /** A readable build of a line-blind program runs in lockstep with it: every engine, start and number of steps. */
  lemma ReadableRunsAlike<S>(raw: seq<string>, lines: seq<OutputLine>, e: Engine<S>, c: Config<S>, n: nat)
    requires BuiltFrom(raw, lines) && LineBlind(ProgramOf(raw), KeptOf(lines))
    ensures Run(Rebuilt(lines), e, Moved(KeptOf(lines), |raw|, c), n) ==
        Moved(KeptOf(lines), |raw|, Run(ProgramOf(raw), e, c, n))
  {
    hide BuiltFrom, LineBlind, Carried;
    BuildReads(raw, lines);
    ReadableIsCarried(raw, lines);
    BlindRunMoves(ProgramOf(raw), KindsOf(lines), KeptOf(lines), e, c, n);
  }

  /** A program that is not line-blind is told apart from its readable build in one step. */
  lemma ReadableNeedsLineBlind(raw: seq<string>, lines: seq<OutputLine>)
    requires BuiltFrom(raw, lines) && !LineBlind(ProgramOf(raw), KeptOf(lines))
    ensures exists i: nat :: Diverges(ProgramOf(raw), Rebuilt(lines), KeptOf(lines), StartAt(i, |raw|))
  {
    hide BuiltFrom, LineBlind, Carried, Diverges;
    BuildReads(raw, lines);
    ReadableIsCarried(raw, lines);
    var i := NotBlindDiverges(ProgramOf(raw), KindsOf(lines), KeptOf(lines));
  }

  // ----- building again -----

  function Renumbered(lines: seq<OutputLine>): (r: seq<OutputLine>)
    ensures |r| == |lines|
  {
    seq(|lines|, g requires 0 <= g < |lines| => lines[g].(sourceLine := g))
  }

  lemma CleanOutput(g: nat, line: OutputLine)
    requires Consistent(line) && Clean(line.text)
    ensures OutputOf(g, line.text) == [line.(sourceLine := g)]
  {
    ParseNeat(line.text);
    assert Trim(line.text) == line.text;
  }

  lemma {:induction false} KeptAgain(lines: seq<OutputLine>)
    requires forall g :: 0 <= g < |lines| ==> Consistent(lines[g]) && Clean(lines[g].text)
    ensures KeptLines(Texts(lines)) == Renumbered(lines)
  {
    hide Consistent, Clean, OutputOf;
    if lines != [] {
      var n := |lines| - 1;
      KeptAgain(lines[..n]);
      assert Texts(lines)[..n] == Texts(lines[..n]);
      CleanOutput(n, lines[n]);
      assert Renumbered(lines) == Renumbered(lines[..n]) + [lines[n].(sourceLine := n)];
    }
  }

  /** In a build nothing needs adjusting: its literal targets are in range and name themselves. */
  lemma AdjustedOnce(x: Context, y: Context, p: seq<LineKind>, kept: seq<nat>, g: nat, line: OutputLine)
    requires AdjustsFor(x, p, kept) && x.relabelled == {} && NamesAreIdentifiers(p)
    requires g < |kept| && line.sourceLine == kept[g] && Adjustment(x, g, line).Ok?
    requires y.lineMap == LineMap(|kept|, seq(|kept|, i => i)) && !y.topologyChanged
    ensures Adjustment(y, g, Retargeted(line, Adjustment(x, g, line).value).(sourceLine := g)) == Ok(None)
  {
    hide IsLabelSymbol, IsRelative, IsAbsoluteBranch, ParseInteger, IntText, LineMap, ReplaceLastToken,
        NamesAreIdentifiers, LiteralAdjustment, Collect, Increasing;
    var target := Adjustment(x, g, line).value;
    if line.mnemonic.Some? && line.operands != [] {
      var m, token := line.mnemonic.value, line.operands[|line.operands| - 1];
      RelativeIsNotAbsolute(m);
      if target.Some? { IntTextParses(target.value); }
      if ParseInteger(token).Some? && (IsRelative(m) || IsAbsoluteBranch(m)) {
        var v := ParseInteger(token).value;
        LiteralIsNoLabel(p, token);
        LiteralSettles(|p|, kept, g, kept[g], IsRelative(m), v);
      }
    }
  }

  lemma LiteralIsNoLabel(p: seq<LineKind>, t: string)
    requires NamesAreIdentifiers(p) && ParseInteger(t).Some?
    ensures !IsLabelSymbol(Collect(p), t)
  {
    CollectEntries(p, t);
    if t in Collect(p) { IdentifiersAreNotIntegers(t); }
  }

  lemma LiteralSettles(n: nat, kept: seq<nat>, g: nat, sourceLine: nat, relative: bool, v: int)
    requires Increasing(kept, n) && g < |kept| && LiteralAdjustment(LineMap(n, kept), g, sourceLine, relative, v).Ok?
    ensures var adjusted := LiteralAdjustment(LineMap(n, kept), g, sourceLine, relative, v).value;
      LiteralAdjustment(LineMap(|kept|, seq(|kept|, i => i)), g, g, relative, if adjusted.Some? then adjusted.value
        else v) == Ok(None)
  {
    hide LineMap, TranslateTarget, Below;
    var same := seq(|kept|, i => i);
    var d := (if relative then sourceLine else 0) + v;
    LiteralIsRelinked(n, kept, g, sourceLine, relative, v);
    TranslateIsBelow(n, kept, d);
    NothingDeleted(same, |kept|, Below(kept, d));
    TranslateIsBelow(|kept|, same, Below(kept, d));
  }

  /** Building a readable build again removes nothing, adjusts no branch and gives the same code. */
  lemma ReadableIsIdempotent(raw: seq<string>, lines: seq<OutputLine>)
    requires BuiltFrom(raw, lines)
    ensures ReadableLines(SourceLines(CodeOf(lines))) == Ok(Adjusted(Renumbered(lines), 0, 0))
    ensures CodeOf(Renumbered(lines)) == CodeOf(lines)
  {
    hide ReadableLines, ProgramOf, Adjustment, Consistent, Clean, AdjustsFor, Thinned, Retargeted, LineMap;
    BuildReads(raw, lines);
    BuildThins(raw, lines);
    KeptAgain(lines);
    var again := Renumbered(lines);
    assert Texts(again) == Texts(lines);
    NothingLeft(raw, lines);
  }

  lemma NothingLeft(raw: seq<string>, lines: seq<OutputLine>)
    requires BuiltFrom(raw, lines) && KeptLines(Texts(lines)) == Renumbered(lines)
    ensures ReadableLines(Texts(lines)) == Ok(Adjusted(Renumbered(lines), 0, 0))
  {
    hide ProgramOf, Adjustment, Consistent, Clean, AdjustsFor, Retargeted, BuiltFrom, LineMap;
    var again := Renumbered(lines);
    KeptLinesInRange(Texts(lines));
    var y := ContextOf(ProgramOf(Texts(lines)), again, {});
    assert KeptOf(again) == seq(|lines|, i => i);
    forall g | 0 <= g < |lines| ensures Adjustment(y, g, again[g]) == Ok(None) {
      var x, line := BuiltLine(raw, lines, g);
      assert NamesAreIdentifiers(ProgramOf(raw)) by { BuiltNames(raw, lines); }
      AdjustedOnce(x, y, ProgramOf(raw), KeptOf(lines), g, line);
    }
    NothingAdjusted(y, again, |lines|);
    assert again[..|lines|] == again;
  }

  lemma BuiltNames(raw: seq<string>, lines: seq<OutputLine>)
    requires BuiltFrom(raw, lines)
    ensures NamesAreIdentifiers(ProgramOf(raw))
  {}
}
