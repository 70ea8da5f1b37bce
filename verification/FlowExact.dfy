/** Programs in which exactly the lines that no run executes are reported unreachable. */
module FlowExact {
  import opened Prelude
  import opened Text
  import opened Literals
  import opened Registers
  import opened Symbols
  import opened Machine
  import opened Carrying
  import opened NameTransfer
  import opened Flow
  import opened FlowRuns
  import opened FlowTargets

  /** No `jal`, behind which the analysis expects a return, and no branch without a target, which stops the machine. */
  predicate Complete(p: seq<LineKind>) {
    forall i :: 0 <= i < |p| && p[i].Instruction? ==>
      p[i].mnemonic != "jal" && (IsBranch(p[i].mnemonic) ==> p[i].operands != [])
  }

  /** Where the analysis has a target in such a program the machine goes. */
  lemma TargetIsGoal(l: Language, p: seq<LineKind>, number: string -> Option<int>, i: nat, d: nat)
    requires Safe(l, p) && i < |p| && p[i].Instruction? && IsKnownBranch(p[i].mnemonic)
    requires TargetAt(l, p, Collect(p), i) == Some(d)
    ensures GoalOf(p, number, i) == Goes(d)
  {
    hide WellNamed, Unshadowed, Collect, TargetOf, BranchTarget, IsNumeric, IsRegister, IsLabelSymbol, IsRelative,
        IsBranch, IsKnownBranch;
    var m := p[i].mnemonic;
    assert Lower(m) == m by { PlainHere(l, p, i); }
    KnownBranches(m);
    TargetsAgree(l, p, i, m, p[i].operands[|p[i].operands| - 1]);
  }

  lemma OnlyJumps(m: string)
    requires m !in UNTRANSLATED && m != "jal" && (IsKnownBranch(m) ==> !IsUnconditional(m) || LinksReturn(m))
    ensures !IsJump(m)
  {
    assert "j"[..1] == "j" && "jr"[|"jr"| - 2..] == "jr";
  }

  /** Where the analysis falls through, so does the machine. */
  lemma FollowingFalls(l: Language, p: seq<LineKind>, i: nat)
    requires Safe(l, p) && Complete(p) && i < |p| && p[i].Instruction? && p[i].mnemonic != "hcf"
    requires IsKnownBranch(p[i].mnemonic) ==> !IsUnconditional(p[i].mnemonic) || LinksReturn(p[i].mnemonic)
    ensures Falls(p, i)
  {
    hide WellNamed, Unshadowed, Collect, Followable, IsBranch, IsKnownBranch, IsUnconditional, LinksReturn, IsJump;
    assert Lower(p[i].mnemonic) == p[i].mnemonic by { PlainHere(l, p, i); }
    OnlyJumps(p[i].mnemonic);
  }

  lemma NextSkips(p: seq<LineKind>, i: nat)
    requires i < |p| && !IsOperation(p[i])
    ensures NextOperation(p, i) == NextOperation(p, i + 1)
  {}

  /** One edge of the analysis is one step the machine surely takes, or a line it passes over. */
  lemma EdgeIsSure(l: Language, p: seq<LineKind>, number: string -> Option<int>, j: nat, k: nat, i: nat)
    requires Safe(l, p) && Complete(p) && j < |p| && k in EdgesAt(l, p, Collect(p), j)
    requires NextOperation(p, k) == Some(i)
    ensures if IsOperation(p[j]) then Sure(p, number, j, i) else NextOperation(p, j) == Some(i)
  {
    hide Safe, Complete, TargetAt, Collect, GoalOf, Falls, IsKnownBranch, IsUnconditional, LinksReturn, IsDirective;
    if !IsOperation(p[j]) {
      SkippedLine(p[j]);
      NextSkips(p, j);
    } else {
      var target := TargetAt(l, p, Collect(p), j);
      if IsKnownBranch(p[j].mnemonic) && target == Some(k) {
        TargetIsGoal(l, p, number, j, k);
      } else {
        FollowingFalls(l, p, j);
      }
    }
  }

  lemma {:induction false} PathIsSure(l: Language, p: seq<LineKind>, number: string -> Option<int>, path: seq<nat>,
                          i: nat)
    requires Safe(l, p) && Complete(p) && IsPath(Edges(l, p), path) && NextOperation(p, path[|path| - 1]) == Some(i)
    ensures SurelyReached(p, number, i)
    decreases |path|
  {
    hide Safe, Complete, EdgesAt, Sure, SurelyReached;
    var n := |path| - 1;
    if n == 0 {
      FirstOperation(p, number, i);
    } else {
      var j, k := path[n - 1], path[n];
      assert IsPath(Edges(l, p), path[..n]);
      assert path[n - 1 + 1] in Edges(l, p)[path[n - 1]];
      EdgeIsSure(l, p, number, j, k, i);
      if IsOperation(p[j]) {
        PathIsSure(l, p, number, path[..n], j);
        RouteGrows(p, number, j, i);
      } else {
        PathIsSure(l, p, number, path[..n], i);
      }
    }
  }

  lemma FirstOperation(p: seq<LineKind>, number: string -> Option<int>, i: nat)
    requires NextOperation(p, 0) == Some(i)
    ensures SurelyReached(p, number, i)
  {
    hide Sure;
    assert IsRoute(p, number, [i]) && [i][|[i]| - 1] == i;
  }

  // ----- registers as targets -----

  /** A branch to a register keeps the analysis silent. */
  lemma RegisterSilences(l: Language, p: seq<LineKind>, i: nat, j: nat)
    requires i < |p| && p[i].Instruction? && IsKnownBranch(p[i].mnemonic) && p[i].operands != []
    requires var token := p[i].operands[|p[i].operands| - 1];
      l.isRegister(token) && token !in Collect(p) && NumberOf(l, token) == None
    ensures !Reported(l, p, j)
  {
    hide IsKnownBranch, Collect, NumberOf, Reachable;
    HcfIsNoBranch(p[i].mnemonic);
    assert TargetAt(l, p, Collect(p), i) == None;
    assert DynamicAt(l, p, Collect(p), i);
  }

  lemma HcfIsNoBranch(m: string)
    requires IsKnownBranch(m)
    ensures m != "hcf"
  {
    assert "hcf"[..1] == "h" && "hcf"[..2] == "hc";
  }

  /** What the language takes for a register is one. */
  ghost predicate KnowsRegisters(l: Language) { forall t :: l.isRegister(t) ==> IsRegister(t) }

  /** Nothing else does: with targets it can follow, the analysis speaks. */
  lemma FollowableSpeaks(l: Language, p: seq<LineKind>)
    requires Safe(l, p) && KnowsRegisters(l)
    ensures !HasDynamicTarget(l, p)
  {
    hide WellNamed, Unshadowed, Collect, IsRegister, IsNumeric, IsLabelSymbol, TargetAt, IsKnownBranch;
    forall i | 0 <= i < |p| ensures !DynamicAt(l, p, Collect(p), i) {
      if DynamicAt(l, p, Collect(p), i) {
        KnownBranches(p[i].mnemonic);
        TokenIsStatic(l, p, p[i].operands[|p[i].operands| - 1]);
      }
    }
  }

  lemma TokenIsStatic(l: Language, p: seq<LineKind>, token: string)
    requires WellNamed(p) && KnowsRegisters(l) && !IsRegister(token)
    requires IsNumeric(Collect(p), token) || IsLabelSymbol(Collect(p), token)
    ensures !MayBeDynamic(l, Collect(p), token)
  {
    hide ParseInteger, Collect, IsRegister, ResolveFrom, Unique, PlainMnemonics, IsIdentifier;
    var table := Collect(p);
    CollectEntries(p, token);
    if token in table { IdentifiersAreNotIntegers(token); }
    if token in Defines(table) {
      var value := Defines(table)[token];
      DefineResolves(p, token);
      CollectEntries(p, value);
      if ParseInteger(value).Some? {
        if value in table { IdentifiersAreNotIntegers(value); }
        SymbolOfDefine(table, token, {});
        LiteralIsNotReserved(value);
      }
    }
  }

  /** An operation is reported exactly if no branch is dynamic and the machine never gets there. */
  lemma ReportIsExact(l: Language, p: seq<LineKind>, number: string -> Option<int>, i: nat)
    requires Safe(l, p) && Complete(p) && i < |p| && IsOperation(p[i])
    ensures Reported(l, p, i) <==> !HasDynamicTarget(l, p) && !SurelyReached(p, number, i)
  {
    hide Safe, Complete, Edges, HasDynamicTarget, Sure;
    assert NextOperation(p, i) == Some(i);
    if Reachable(Edges(l, p), i) {
      var path :| IsPath(Edges(l, p), path) && path[|path| - 1] == i;
      PathIsSure(l, p, number, path, i);
    } else if SurelyReached(p, number, i) {
      var route :| IsRoute(p, number, route) && route[|route| - 1] == i;
      RouteIsAnalysed(l, p, number, route);
    }
  }

  /** So in such a program an operation is reported exactly if no branch is dynamic and no run executes it. */
  lemma ReportedExactlyDead(l: Language, p: seq<LineKind>, number: string -> Option<int>, i: nat)
    requires Safe(l, p) && Complete(p) && i < |p| && IsOperation(p[i])
    ensures Reported(l, p, i) <==>
      !HasDynamicTarget(l, p) && forall v, s, n: nat :: !Executes(p, Steer(number, v), 0, s, n, i)
  {
    hide Safe, Complete, HasDynamicTarget, SurelyReached, Executes, Reachable, Steer;
    ReportIsExact(l, p, number, i);
    if SurelyReached(p, number, i) {
      var s, n := ReachedRuns(p, number, 0, i);
    } else if !HasDynamicTarget(l, p) {
      forall v, s, n: nat ensures !Executes(p, Steer(number, v), 0, s, n, i) {
        SteerHalts(number, v);
        ReportedNeverRuns(l, p, Steer(number, v), 0, s, n, i);
      }
    }
  }

  lemma SteerHalts(number: string -> Option<int>, v: int)
    ensures HaltsOnFire(Steer(number, v))
  {}
}
