/** Programs in which no line reported unreachable is ever executed. */
module FlowTargets {
  import opened Prelude
  import opened Text
  import opened Literals
  import opened Registers
  import opened Symbols
  import opened Machine
  import opened Carrying
  import opened NameTransfer
  import opened Flow
  import opened FlowRuns

  // ----- conditions -----

  /** A literal, or a define that comes down to one. */
  predicate IsNumeric(table: Table, token: string) {
    ParseInteger(token).Some? || (token in Defines(table) && ParseInteger(Defines(table)[token]).Some?)
  }

  /** A branch operand the analysis reads as the machine does; a label only on an absolute branch. */
  predicate Followable(table: Table, m: string, token: string) {
    !IsRegister(token) && (IsNumeric(table, token) || (!IsRelative(m) && IsLabelSymbol(table, token)))
  }

  /** Every branch is one the analysis knows, with a target it can follow. */
  predicate Predictable(p: seq<LineKind>) {
    forall i :: 0 <= i < |p| && p[i].Instruction? ==>
      && p[i].mnemonic !in UNTRANSLATED
      && (IsBranch(p[i].mnemonic) && p[i].operands != [] ==>
            Followable(Collect(p), p[i].mnemonic, p[i].operands[|p[i].operands| - 1]))
  }

  /** Constants of the language do not have the names of the program's symbols. */
  ghost predicate Unshadowed(l: Language, p: seq<LineKind>) { forall t :: t in Collect(p) ==> l.constant(t) == None }

  // ----- targets agree -----

  lemma {:induction false} SymbolOfDefine(table: Table, current: string, seen: set<string>)
    requires match ResolveFrom(RawDefines(table), current, seen) case None => false case Some(v) => v !in table
    ensures ResolveSymbol(table, current, seen) == ResolveFrom(RawDefines(table), current, seen)
    decreases |table.Keys - seen|
  {
    var raw := RawDefines(table);
    Shrinks(table.Keys - seen, table.Keys - (seen + {current}), current);
    if raw[current] in raw { SymbolOfDefine(table, raw[current], seen + {current}); }
  }

  lemma DefineIsNumber(l: Language, p: seq<LineKind>, token: string, v: int)
    requires WellNamed(p) && Unshadowed(l, p) && token in Defines(Collect(p))
    requires ParseInteger(Defines(Collect(p))[token]) == Some(v)
    ensures ResolveNumber(l, Collect(p), token) == Some(v) && !IsLabelSymbol(Collect(p), token)
  {
    hide ParseInteger, IsIdentifier, ResolveFrom, Collect, Unique, PlainMnemonics;
    var table := Collect(p);
    var value := Defines(table)[token];
    DefineResolves(p, token);
    CollectEntries(p, token);
    CollectEntries(p, value);
    IdentifiersAreNotIntegers(token);
    if value in table { IdentifiersAreNotIntegers(value); }
    SymbolOfDefine(table, token, {});
  }

  lemma LiteralIsNumber(l: Language, p: seq<LineKind>, token: string)
    requires NamesAreIdentifiers(p) && ParseInteger(token).Some?
    ensures ResolveNumber(l, Collect(p), token) == ParseInteger(token) && !IsLabelSymbol(Collect(p), token)
  {
    hide ParseInteger, IsIdentifier, Collect;
    CollectEntries(p, token);
    if token in Collect(p) { IdentifiersAreNotIntegers(token); }
  }

  lemma Unbound(p: seq<LineKind>, name: string)
    requires WellNamed(p)
    ensures (name in Collect(p) ==> Collect(p)[name].kind != AliasName) ==> Follow(p, "alias", name, HOPS) == name
  {
    hide Collect;
    BindingIsSymbol(p, "alias", name);
  }

  /** What a numeric operand resolves to when the program runs. */
  lemma NumericResolves(p: seq<LineKind>, token: string)
    requires WellNamed(p) && IsNumeric(Collect(p), token) && !IsRegister(token)
    ensures var v := if ParseInteger(token).Some? then ParseInteger(token)
        else ParseInteger(Defines(Collect(p))[token]);
      ReadQuantity(p, token).Word? && ParseInteger(ReadQuantity(p, token).text) == v
  {
    hide ParseInteger, IsIdentifier, Collect, Unique, PlainMnemonics, Binding, LabelLine, DirectRegister, IsIndirect;
    var table := Collect(p);
    CollectEntries(p, token);
    if token in table { IdentifiersAreNotIntegers(token); }
    DefineResolves(p, token);
    Unbound(p, token);
    var word := Follow(p, "define", token, HOPS);
    LabelIsSymbol(p, word);
    CollectEntries(p, word);
    if word in table { IdentifiersAreNotIntegers(word); }
  }

  lemma LabelResolves(p: seq<LineKind>, token: string)
    requires WellNamed(p) && IsLabelSymbol(Collect(p), token) && !IsRegister(token)
    ensures ReadQuantity(p, token) == Line(Collect(p)[token].line)
  {
    hide Collect, Unique, NamesAreIdentifiers, PlainMnemonics, DirectRegister, IsIndirect;
    BindingIsSymbol(p, "alias", token);
    BindingIsSymbol(p, "define", token);
    LabelIsSymbol(p, token);
  }

  /**
   Where the analysis and the machine send a branch: to the same line, but for a label on a relative branch,
   which the machine counts from the branch and the analysis from the start.
   */
  lemma TargetsAgree(l: Language, p: seq<LineKind>, i: nat, m: string, token: string)
    requires WellNamed(p) && Unshadowed(l, p) && !IsRegister(token)
    requires IsNumeric(Collect(p), token) || IsLabelSymbol(Collect(p), token)
    ensures match TargetOf(p, i, m, token)
      case Computed(_) => false
      case Fixed(d) =>
        if IsRelative(m) && IsLabelSymbol(Collect(p), token) then d >= i &&
          BranchTarget(l, Collect(p), i, m, token) == Some(d - i)
        else BranchTarget(l, Collect(p), i, m, token) == if d >= 0 then Some(d) else None
    ensures IsNumeric(Collect(p), token) ==> !IsLabelSymbol(Collect(p), token)
  {
    hide ReadQuantity, ParseInteger, Collect, ResolveNumber, IsRelative, WellNamed, IsLabelSymbol, IsRegister;
    var table := Collect(p);
    if IsNumeric(table, token) {
      NumericResolves(p, token);
      if ParseInteger(token).Some? {
        assert NamesAreIdentifiers(p) by { WellNamedNames(p); }
        LiteralIsNumber(l, p, token);
      } else {
        DefineIsNumber(l, p, token, ParseInteger(Defines(table)[token]).value);
      }
    } else {
      LabelResolves(p, token);
      LabelFacts(table, token);
    }
  }

  lemma WellNamedNames(p: seq<LineKind>)
    requires WellNamed(p)
    ensures NamesAreIdentifiers(p)
  {}

  lemma LabelFacts(table: Table, token: string)
    requires IsLabelSymbol(table, token)
    ensures token in table
  {}

  // ----- predictable programs -----

  lemma BranchesTo(l: Language, p: seq<LineKind>, i: nat, d: nat)
    requires i < |p| && Reachable(Edges(l, p), i) && p[i].Instruction? && p[i].mnemonic != "hcf"
    requires IsKnownBranch(p[i].mnemonic)
    requires TargetAt(l, p, Collect(p), i) == Some(d)
    ensures OnPath(Edges(l, p), d)
  {
    hide Reachable, TargetAt, Collect, IsKnownBranch, IsUnconditional, LinksReturn, Following;
    if d < |p| {
      assert d in EdgesAt(l, p, Collect(p), i);
      ReachableStep(Edges(l, p), i, d);
    }
  }

  lemma KnownBranches(m: string)
    requires m !in UNTRANSLATED
    ensures IsKnownBranch(m) <==> IsBranch(m)
    ensures IsUnconditional(m) ==> IsJump(m)
  {
    assert StartsWith(m, "br") ==> m[..2][0] == 'b' && m[..1] == "b";
  }

  ghost predicate Safe(l: Language, p: seq<LineKind>) { WellNamed(p) && Predictable(p) && Unshadowed(l, p) }

  /** In a predictable program every branch goes to one line, and the analysis knows it. */
  lemma PredictableGoal(l: Language, p: seq<LineKind>, number: string -> Option<int>, i: nat)
    requires Safe(l, p) && i < |p| && p[i].Instruction?
    ensures match GoalOf(p, number, i)
      case Nowhere => true
      case Goes(d) => p[i].mnemonic != "hcf" && IsKnownBranch(p[i].mnemonic) && TargetAt(l, p, Collect(p), i) == Some(d)
      case Anywhere => false
    ensures forall w :: !IsTargetWord(p, i, w)
  {
    hide WellNamed, Unshadowed, Collect, TargetOf, BranchTarget, IsNumeric, IsRegister, IsLabelSymbol, IsRelative,
        IsBranch, IsKnownBranch;
    var m := p[i].mnemonic;
    assert Lower(m) == m by { PlainHere(l, p, i); }
    KnownBranches(m);
    NoBranchOnFire(m);
    if IsBranch(m) && p[i].operands != [] { TargetsAgree(l, p, i, m, p[i].operands[|p[i].operands| - 1]); }
  }

  lemma PlainHere(l: Language, p: seq<LineKind>, i: nat)
    requires Safe(l, p) && i < |p| && p[i].Instruction?
    ensures Lower(p[i].mnemonic) == p[i].mnemonic
  {}

  lemma GoalIsOnPath(l: Language, p: seq<LineKind>, number: string -> Option<int>, i: nat, d: nat)
    requires Safe(l, p) && i < |p| && p[i].Instruction? && Reachable(Edges(l, p), i) && GoalOf(p, number, i) == Goes(d)
    ensures match NextOperation(p, d) case None => true case Some(j) => Reachable(Edges(l, p), j)
  {
    hide Safe, GoalOf, Reachable, Edges, TargetAt, IsKnownBranch;
    PredictableGoal(l, p, number, i);
    BranchesTo(l, p, i, d);
    NextIsOnPath(l, p, d);
  }

  lemma {:induction false} RouteIsAnalysed(l: Language, p: seq<LineKind>, number: string -> Option<int>,
                          route: seq<nat>)
    requires Safe(l, p) && IsRoute(p, number, route)
    ensures Reachable(Edges(l, p), route[|route| - 1])
    decreases |route|
  {
    hide Safe, GoalOf, Falls, Reachable, Edges;
    var m := |route| - 1;
    if m == 0 {
      ReachableStart(Edges(l, p)) by { EdgesOfSome(l, p); }
      NextIsOnPath(l, p, 0);
    } else {
      var i, j := route[m - 1], route[m];
      assert IsRoute(p, number, route[..m]);
      RouteIsAnalysed(l, p, number, route[..m]);
      assert Sure(p, number, route[m - 1], route[m - 1 + 1]);
      if Falls(p, i) && NextOperation(p, i + 1) == Some(j) {
        FallIsOnPath(l, p, i);
      } else {
        GoalIsOnPath(l, p, number, i, GoalOf(p, number, i).line);
      }
    }
  }

  /** No branch of a predictable program strays. */
  lemma PredictableNeverStrays(l: Language, p: seq<LineKind>, number: string -> Option<int>)
    requires Safe(l, p)
    ensures NeverStrays(l, p, number)
  {
    hide Safe, GoalOf, Reachable, Edges;
    forall k: nat | SurelyReached(p, number, k) ensures !Strays(l, p, number, k) {
      var route :| IsRoute(p, number, route) && route[|route| - 1] == k;
      RouteIsAnalysed(l, p, number, route);
      if k < |p| && p[k].Instruction? {
        PredictableGoal(l, p, number, k);
        if GoalOf(p, number, k).Goes? { GoalIsOnPath(l, p, number, k, GoalOf(p, number, k).line); }
      }
    }
  }

  ghost predicate HaltsOnFire<S(!new)>(e: Engine<S>) {
    forall data, s, ra, line :: e.execute("hcf", data, s, ra, line).0.Halt?
  }

  /** No run of a predictable program ever executes a line reported unreachable, whatever the engine. */
  lemma ReportedNeverRuns<S(!new)>(l: Language, p: seq<LineKind>, e: Engine<S>, ra: nat, s: S, n: nat, i: nat)
    requires Safe(l, p) && HaltsOnFire(e) && Reported(l, p, i)
    ensures !Executes(p, e, ra, s, n, i)
  {
    hide Safe, Executes, Reported, Strays, SurelyReached, GoalOf, TargetAt, TargetOf;
    var number := w => None;
    forall k: nat, w ensures !IsTargetWord(p, k, w) {
      if k < |p| && p[k].Instruction? { PredictableGoal(l, p, number, k); }
    }
    PredictableNeverStrays(l, p, number);
    if Executes(p, e, ra, s, n, i) { ReportedRunStrays(l, p, number, e, ra, s, n, i); }
  }
}
