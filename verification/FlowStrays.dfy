/** Two programs the analysis accepts, in which some run executes a line reported unreachable. */
module FlowStrays {
  import opened Prelude
  import opened Text
  import opened Literals
  import opened Symbols
  import opened Machine
  import opened Environment
  import opened Carrying
  import opened Readable
  import opened NameTransfer
  import opened Flow
  import opened FlowRuns

  function FirstLines(n: nat): (s: set<nat>)
    ensures forall j: nat :: j in s <==> j < n
  {
    if n == 0 then {} else FirstLines(n - 1) + {n - 1}
  }

  /** A line behind the first `n`, which no edge leaves, is reported. */
  lemma BehindIsReported(l: Language, p: seq<LineKind>, n: nat, i: nat)
    requires n <= i < |p| && p[i] != Empty && 0 < n
    requires forall j: nat, k :: j < n && k in EdgesAt(l, p, Collect(p), j) ==> k < n
    requires forall j :: 0 <= j < |p| ==> !DynamicAt(l, p, Collect(p), j)
    ensures Reported(l, p, i)
  {
    hide EdgesAt, DynamicAt, Reachable, Collect, FirstLines;
    MarkedIsReachable(Edges(l, p), FirstLines(n));
  }

  /** An operation that neither branches nor halts, such as `yield` or `move r0 1`. */
  predicate Plain(k: LineKind) {
    && k.Instruction? && k.mnemonic != "alias" && k.mnemonic != "define" && k.mnemonic != "hcf" &&
        Lower(k.mnemonic) != "hcf"
    && !IsKnownBranch(k.mnemonic) && !IsBranch(Lower(k.mnemonic))
  }

  lemma YieldIsPlain()
    ensures Plain(Instruction("yield", [])) && Plain(Instruction("move", ["r0", "1"]))
  {
    assert "yield"[..1] == "y" && "move"[..1] == "m" && Lower("yield") == "yield" && Lower("move") == "move";
    assert "yield"[0] == 'y' && "move"[0] == 'm' && "alias"[0] == 'a' && "define"[0] == 'd' && "hcf"[0] == 'h';
    assert "yield"[..2][0] == 'y' && "move"[..2][0] == 'm';
  }

  lemma JumpMnemonic(m: string)
    requires m == "j" || m == "jr"
    ensures m != "hcf" && IsKnownBranch(m) && IsUnconditional(m) && !LinksReturn(m) && Lower(m) == m && IsJump(m)
    ensures IsBranch(m)
    ensures m == "j" ==> !IsRelative(m)
    ensures m == "jr" ==> IsRelative(m)
  {
    assert "jr"[..1] == "j" && "jr"[|"jr"| - 2..] == "jr";
  }

  // ----- a label on a relative branch -----

  /**
   Such as `yield`, `yield`, `jr b`, `b:`, `j b`, `move r0 1`: the analysis sends `jr b` to line 3, the machine to
   line 5.
   */
  function RelativeLabel(y: LineKind, z: LineKind): seq<LineKind> {
    [y, y, Instruction("jr", ["b"]), Label("b"), Instruction("j", ["b"]), z]
  }

  lemma RelativeLabelNames(y: LineKind, z: LineKind)
    requires Plain(y) && Plain(z)
    ensures var p := RelativeLabel(y, z);
      NamesAreIdentifiers(p) && Unique(p) && forall i :: 0 <= i < |p| ==> !IsDirective(p[i])
  {
    assert IsIdentifier("b") && "alias"[0] == 'a' && "define"[0] == 'd' && "jr"[0] == 'j' && "j"[0] == 'j';
    hide IsKnownBranch, IsBranch, Lower, IsIdentifier;
  }

  lemma RelativeLabelIs(y: LineKind, z: LineKind)
    requires Plain(y) && Plain(z)
    ensures var p := RelativeLabel(y, z);
        IsLabelSymbol(Collect(p), "b") && Collect(p)["b"].line == 3 && ReadQuantity(p, "b") == Line(3)
  {
    assert y.Instruction? && z.Instruction?;
    hide Collect, LabelLine, Binding, Plain, NamesAreIdentifiers, Unique, IsDirective;
    var p := RelativeLabel(y, z);
    RelativeLabelNames(y, z);
    SymbolIsDeclared(p, 3);
    NoBinding(p, "alias", "b");
    NoBinding(p, "define", "b");
    LabelLineIs(p, "b", 3);
    assert "b"[..1][0] == 'b';
  }

  lemma RelativeLabelEdges(l: Language, y: LineKind, z: LineKind)
    requires Plain(y) && Plain(z)
    ensures var p := RelativeLabel(y, z);
      && EdgesAt(l, p, Collect(p), 0) == [1] && EdgesAt(l, p, Collect(p), 1) == [2] &&
          EdgesAt(l, p, Collect(p), 2) == [3]
      && EdgesAt(l, p, Collect(p), 3) == [4] && EdgesAt(l, p, Collect(p), 4) == [3]
      && forall i :: 0 <= i < 6 ==> !DynamicAt(l, p, Collect(p), i)
  {
    hide Collect, ReadQuantity, IsKnownBranch, IsBranch, Lower, IsUnconditional, LinksReturn, MayBeDynamic,
        ResolveNumber;
    RelativeLabelIs(y, z);
    JumpMnemonic("jr");
    JumpMnemonic("j");
    var p := RelativeLabel(y, z);
    assert TargetAt(l, p, Collect(p), 2) == Some(3) && TargetAt(l, p, Collect(p), 4) == Some(3);
  }

  lemma EdgeStays(l: Language, p: seq<LineKind>, j: nat, k: nat)
    requires |p| == 6 && j < 5 && k in EdgesAt(l, p, Collect(p), j)
    requires EdgesAt(l, p, Collect(p), 0) == [1] && EdgesAt(l, p, Collect(p), 1) == [2]
    requires EdgesAt(l, p, Collect(p), 2) == [3] && EdgesAt(l, p, Collect(p), 3) == [4]
    requires EdgesAt(l, p, Collect(p), 4) == [3]
    ensures k < 5
  {
    hide EdgesAt, Collect;
  }

  lemma RelativeLabelReported(l: Language, y: LineKind, z: LineKind)
    requires Plain(y) && Plain(z)
    ensures Reported(l, RelativeLabel(y, z), 5)
  {
    var p := RelativeLabel(y, z);
    assert p[5] != Empty && |p| == 6;
    hide Collect, EdgesAt, DynamicAt, Plain, RelativeLabel, Reported;
    RelativeLabelEdges(l, y, z);
    forall j: nat, k | j < 5 && k in EdgesAt(l, p, Collect(p), j) ensures k < 5 { EdgeStays(l, p, j, k); }
    BehindIsReported(l, p, 5, 5);
  }

  lemma RelativeLabelReached(number: string -> Option<int>, y: LineKind, z: LineKind)
    requires Plain(y) && Plain(z)
    ensures SurelyReached(RelativeLabel(y, z), number, 2)
    ensures GoalOf(RelativeLabel(y, z), number, 2) == Goes(5)
  {
    var p := RelativeLabel(y, z);
    JumpMnemonic("jr");
    RelativeLabelIs(y, z);
    assert IsOperation(y) && IsOperation(z) && IsOperation(p[2]) by { RelativeLabelNames(y, z); }
    hide IsKnownBranch, Lower, Collect, IsBranch, ReadQuantity, IsDirective, IsRelative;
    assert Falls(p, 0) && Falls(p, 1);
    assert Sure(p, number, 0, 1) && Sure(p, number, 1, 2);
    var route := [0, 1, 2];
    assert IsRoute(p, number, route) by {
      forall k | 0 <= k < 2 ensures Sure(p, number, route[k], route[k + 1]) {}
    }
    assert route[|route| - 1] == 2;
  }

  /** A label on a relative branch: a reported line that some run executes. */
  lemma RelativeLabelStrays(l: Language, number: string -> Option<int>, y: LineKind, z: LineKind)
    returns (s: seq<bool>, n: nat)
    requires Plain(y) && Plain(z)
    ensures Reported(l, RelativeLabel(y, z), 5)
    ensures SurelyReached(RelativeLabel(y, z), number, 2) && Strays(l, RelativeLabel(y, z), number, 2)
    ensures Executes(RelativeLabel(y, z), Steer(number, 0), 0, s, n, 5)
  {
    hide Plain, Reported, SurelyReached, Executes, GoalOf;
    var p := RelativeLabel(y, z);
    RelativeLabelReported(l, y, z);
    RelativeLabelReached(number, y, z);
    assert NextOperation(p, 5) == Some(5) by { PlainIsOperation(z); }
    RouteGrows(p, number, 2, 5);
    s, n := ReachedRuns(p, number, 0, 5);
  }

  lemma PlainIsOperation(k: LineKind)
    requires Plain(k)
    ensures IsOperation(k)
  {}

  // ----- a branch the analysis does not know -----

  /** Such as `bdse d0 3`, `j 1`, `yield`, `move r0 1`: the analysis takes the first line for no branch. */
  function UnknownBranch(y: LineKind, z: LineKind): seq<LineKind> {
    [Instruction("bdse", ["d0", "3"]), Instruction("j", ["1"]), y, z]
  }

  lemma UnknownMnemonic()
    ensures Lower("bdse") == "bdse" && IsBranch("bdse") && !IsRelative("bdse") && !IsJump("bdse")
    ensures !IsKnownBranch("bdse") && "bdse" != "hcf"
    ensures IsOperation(Instruction("bdse", ["d0", "3"])) && "bdse" != "alias" && "bdse" != "define"
  {
    UntranslatedIsAbsolute("bdse");
    assert "bdse"[..2][1] == 'd' && "br"[1] == 'r';
  }

  lemma DigitTarget(p: seq<LineKind>, t: string, v: nat)
    requires NamesAreIdentifiers(p) && v < 10 && t == [('0' as nat + v) as char]
    ensures ReadQuantity(p, t) == Word(t) && ParseInteger(t) == Some(v)
  {
    IntTextParses(v);
    assert IntText(v) == t;
    hide ParseInteger, ReadQuantity, NamesAreIdentifiers;
    LiteralIsWord(p, t);
  }

  lemma UnknownBranchNames(y: LineKind, z: LineKind)
    requires Plain(y) && Plain(z)
    ensures NamesAreIdentifiers(UnknownBranch(y, z))
  {
    UnknownMnemonic();
    assert "j"[0] == 'j' && "alias"[0] == 'a' && "define"[0] == 'd';
    hide IsKnownBranch, IsBranch, Lower;
  }

  lemma UnknownBranchReported(l: Language, y: LineKind, z: LineKind)
    requires Plain(y) && Plain(z)
    ensures Reported(l, UnknownBranch(y, z), 3)
  {
    var p := UnknownBranch(y, z);
    UnknownBranchNames(y, z);
    UnknownMnemonic();
    JumpMnemonic("j");
    DigitTarget(p, "1", 1);
    assert !IsLabelSymbol(Collect(p), "1") by { LiteralIsNoLabel(p, "1"); }
    hide Collect, ReadQuantity, IsKnownBranch, IsBranch, Lower, IsUnconditional, LinksReturn, MayBeDynamic,
        ParseInteger, IsRelative, IsLabelSymbol, Reported;
    assert TargetAt(l, p, Collect(p), 1) == Some(1);
    assert EdgesAt(l, p, Collect(p), 0) == [1] && EdgesAt(l, p, Collect(p), 1) == [1];
    assert z != Empty;
    BehindIsReported(l, p, 2, 3);
  }

  lemma LiteralGoal(p: seq<LineKind>, number: string -> Option<int>, i: nat, m: string, t: string, v: nat)
    requires i < |p| && p[i].Instruction? && Lower(p[i].mnemonic) == m && IsBranch(m) && !IsRelative(m)
    requires p[i].operands != [] && p[i].operands[|p[i].operands| - 1] == t
    requires ReadQuantity(p, t) == Word(t) && ParseInteger(t) == Some(v)
    ensures GoalOf(p, number, i) == Goes(v)
  {
    hide ReadQuantity, ParseInteger, IsBranch, IsRelative, Lower;
  }

  lemma FirstIsReached(p: seq<LineKind>, number: string -> Option<int>)
    requires p != [] && IsOperation(p[0])
    ensures SurelyReached(p, number, 0)
  {
    hide Sure;
    assert IsRoute(p, number, [0]) && [0][|[0]| - 1] == 0;
  }

  lemma UnknownBranchReached(number: string -> Option<int>, y: LineKind, z: LineKind)
    requires Plain(y) && Plain(z)
    ensures var p := UnknownBranch(y, z);
      SurelyReached(p, number, 0) && GoalOf(p, number, 0) == Goes(3) && NextOperation(p, 3) == Some(3)
  {
    var p := UnknownBranch(y, z);
    UnknownMnemonic();
    PlainIsOperation(z);
    UnknownBranchNames(y, z);
    DigitTarget(p, "3", 3);
    hide Plain, ReadQuantity, ParseInteger, IsBranch, IsRelative, IsJump, Lower, IsOperation, SurelyReached, GoalOf;
    LiteralGoal(p, number, 0, "bdse", "3", 3);
    FirstIsReached(p, number);
  }

  /** A branch the analysis does not know: a reported line that some run executes. */
  lemma UnknownBranchStrays(l: Language, number: string -> Option<int>, y: LineKind, z: LineKind)
    returns (s: seq<bool>, n: nat)
    requires Plain(y) && Plain(z)
    ensures Reported(l, UnknownBranch(y, z), 3)
    ensures SurelyReached(UnknownBranch(y, z), number, 0) && Strays(l, UnknownBranch(y, z), number, 0)
    ensures Executes(UnknownBranch(y, z), Steer(number, 0), 0, s, n, 3)
  {
    hide Plain, Reported, SurelyReached, Executes, GoalOf;
    var p := UnknownBranch(y, z);
    UnknownBranchReported(l, y, z);
    UnknownBranchReached(number, y, z);
    RouteGrows(p, number, 0, 3);
    s, n := ReachedRuns(p, number, 0, 3);
  }
}
