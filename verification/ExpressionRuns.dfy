/** Evaluating a printed expression gives the value of its tree. */
module ExpressionRuns {
  import opened Prelude
  import opened Text
  import opened Literals
  import opened Evaluator
  import opened Expressions

  // ----- atoms -----

  /**
   The depth of round brackets after `s`, if it never drops below zero; quotes and square brackets are not looked
   at.
   */
  function ParenDepth(s: string, depth: nat): Option<nat>
    decreases |s|
  {
    if s == [] then Some(depth)
    else if s[0] == '(' then ParenDepth(s[1..], depth + 1)
    else if s[0] == ')' then (if depth == 0 then None else ParenDepth(s[1..], depth - 1))
    else ParenDepth(s[1..], depth)
  }

  predicate NoOuterSpace(s: string) { s != [] && !IsWhitespace(s[0]) && !IsWhitespace(s[|s| - 1]) }

  ghost predicate Quiet(s: string, k: nat, first: bool) { Passes(s, k, first, ' ', 0, false, 0, false) }

  /** A text that stands for itself: no operator outside quotes and brackets, brackets closed, and not a call. */
  ghost predicate IsAtom(s: string) {
    && NoOuterSpace(s) && !IsOperatorChar(s[0]) && s[0] != '(' && FunctionCall(s) == None
    && (forall k :: 0 <= k < LEVELS ==> Quiet(s, k, false))
    && ParenDepth(s, 0) == Some(0) && DelimitAll(NoDelimiters, s) == Some(NoDelimiters)
  }

  predicate IsCallName(name: string) { name != [] && forall i :: 0 <= i < |name| ==> IsNameChar(name[i]) }

  /** Signs stand before atoms and calls only. */
  ghost predicate Proper(e: Expression) {
    match e
    case Atom(text) => IsAtom(text)
    case Call(name, argument) => IsCallName(name) && Proper(argument)
    case Signed(sign, operand) =>
      (sign == '!' || sign == '+' || sign == '-') && (operand.Atom? || operand.Call?) && Proper(operand)
    case Binary(left, _, right) => Proper(left) && Proper(right)
  }

  // ----- small facts about scans -----

  lemma {:induction false} PrevIrrelevant(t: string, k: nat, first: bool, p: char, p': char, depth: int, end: int,
                          splits: bool)
    requires Passes(t, k, first, p, depth, false, end, splits) && p != '\\' && p' != '\\'
    ensures Passes(t, k, first, p', depth, false, end, splits)
  {
    if t != [] {
      PassesParts(t, k, first, p, depth, false, end, splits);
      PassesParts(t, k, first, p', depth, false, end, splits);
    }
  }

  lemma FirstIsQuiet(t: string, k: nat, prev: char)
    requires Passes(t, k, false, prev, 0, false, 0, false)
    ensures Passes(t, k, true, prev, 0, false, 0, false)
  {}

  lemma {:induction false} MoreSplits(t: string, k: nat, first: bool, prev: char, depth: int, quoted: bool, end: int)
    requires Passes(t, k, first, prev, depth, quoted, end, false)
    ensures Passes(t, k, first, prev, depth, quoted, end, true)
    decreases |t|
  {
    AllowingSplits(t, k, first, prev, depth, quoted, end);
  }

  lemma {:induction false} PassesEnd(t: string, k: nat, first: bool, prev: char, depth: int, quoted: bool, end: int,
                          splits: bool)
    requires Passes(t, k, first, prev, depth, quoted, end, splits)
    ensures LastOf(t, prev) != '\\'
    decreases |t|
  {
    if t != [] {
      var q := Quoted(prev, t[0], quoted);
      var d := Depth(t[0], q, depth);
      var w := Width(t, k, first, d, q);
      PassesEnd(t[w..], k, false, t[w - 1], d, q, end, splits);
      Slices(t, [], w);
    }
  }

  /** One character that is neither quote, operator nor backslash. */
  lemma PlainChar(c: char, k: nat, first: bool, prev: char, depth: int, splits: bool)
    requires c != '"' && !IsOperatorChar(c) && c != '\\' && depth >= 0 && Depth(c, false, depth) >= 0
    ensures Passes([c], k, first, prev, depth, false, Depth(c, false, depth), splits)
  {
    assert [c][1..] == [];
    NoOperator([c], k);
    PassesParts([c], k, first, prev, depth, false, Depth(c, false, depth), splits);
  }

  lemma NoOperator(t: string, k: nat)
    requires t != [] && !IsOperatorChar(t[0])
    ensures OperatorAt(t, k) == None
  {
    assert |t| >= 2 ==> t[..2][0] == t[0];
    assert t[..1][0] == t[0];
  }

  lemma {:induction false} NamePasses(name: string, k: nat, first: bool, prev: char, splits: bool)
    requires (forall i :: 0 <= i < |name| ==> IsNameChar(name[i])) && prev != '\\'
    ensures Passes(name, k, first, prev, 0, false, 0, splits)
    decreases |name|
  {
    if name != [] {
      NamePasses(name[1..], k, false, name[0], splits);
      PlainChar(name[0], k, first, prev, 0, splits);
      assert [name[0]] + name[1..] == name;
      PassesJoin([name[0]], name[1..], k, first, prev, 0, false, 0, splits, 0);
    }
  }

  /** Text in parentheses passes quietly at every level. */
  lemma ParensPass(t: string, k: nat, k': nat, first: bool, prev: char, splits: bool)
    requires Passes(t, k, true, ' ', 0, false, 0, true) && prev != '\\'
    ensures Passes("(" + t + ")", k', first, prev, 0, false, 0, splits)
  {
    DeeperIsQuiet(t, k, k', true, ' ', 0, false, 0, true);
    PrevIrrelevant(t, k', false, ' ', '(', 1, 1, false);
    PassesEnd(t, k', false, '(', 1, false, 1, false);
    if splits { MoreSplits(t, k', false, '(', 1, false, 1); }
    PlainChar('(', k', first, prev, 0, splits);
    PlainChar(')', k', false, LastOf(t, '('), 1, splits);
    PassesJoin(t, [')'], k', false, '(', 1, false, 0, splits, 1);
    PassesJoin(['('], t + [')'], k', first, prev, 0, false, 0, splits, 1);
    assert ['('] + (t + [')']) == "(" + t + ")";
  }

  // ----- printed expressions pass -----

  predicate MayPass(e: Expression, k: nat, first: bool, splits: bool) {
    k < LEVELS && k <= LevelOf(e) && (k == LevelOf(e) ==> splits) && (k == 3 && !first ==> !StartsSigned(e))
  }

  /** Printed text passes the scan at every level it does not split at, and at its own level if splits are allowed. */
  lemma {:induction false} PrintPasses(e: Expression, k: nat, first: bool, prev: char, splits: bool)
    requires Proper(e) && MayPass(e, k, first, splits) && prev != '\\'
    ensures Passes(Print(e), k, first, prev, 0, false, 0, splits)
    decreases e, 1
  {
    match e
    case Atom(text) => AtomPasses(text, k, first, prev, splits);
    case Call(name, argument) =>
      PrintPasses(argument, 0, true, ' ', true);
      CallPasses(name, Print(argument), k, first, prev, splits);
    case Signed(sign, operand) =>
      PrintPasses(operand, k, false, sign, splits);
      OperandStart(operand);
      SignPasses(sign, Print(operand), k, first, prev, splits);
    case Binary(left, op, right) =>
      LeftPasses(e, k, first, prev, splits);
      RightPasses(e, k, splits);
      BinaryPasses(LeftText(e), op, RightText(e), k, first, prev, splits);
  }

  function LeftText(e: Expression): string
    requires e.Binary?
  {
    Parens(Print(e.left), ParenLeft(e.left, e.op))
  }

  function RightText(e: Expression): string
    requires e.Binary?
  {
    Parens(Print(e.right), ParenRight(e.right, e.op))
  }

  lemma AtomPasses(text: string, k: nat, first: bool, prev: char, splits: bool)
    requires IsAtom(text) && k < LEVELS && prev != '\\'
    ensures Passes(text, k, first, prev, 0, false, 0, splits)
  {
    assert Quiet(text, k, false);
    PrevIrrelevant(text, k, false, ' ', prev, 0, 0, false);
    if first { FirstIsQuiet(text, k, prev); }
    if splits { MoreSplits(text, k, first, prev, 0, false, 0); }
  }

  lemma FunctionIsName(name: string)
    requires IsCallName(name)
    ensures forall i :: 0 <= i < |name| ==> IsNameChar(name[i])
    ensures name != [] && !IsOperatorChar(name[0]) && name[0] != '(' && !IsWhitespace(name[0])
    ensures !IsWhitespace(name[|name| - 1])
  {}

  lemma CallPasses(name: string, argument: string, k: nat, first: bool, prev: char, splits: bool)
    requires IsCallName(name) && Passes(argument, 0, true, ' ', 0, false, 0, true) && prev != '\\'
    ensures Passes(name + "(" + argument + ")", k, first, prev, 0, false, 0, splits)
  {
    hide Passes, IsCallName;
    FunctionIsName(name);
    NamePasses(name, k, first, prev, splits);
    PassesEnd(name, k, first, prev, 0, false, 0, splits);
    ParensPass(argument, 0, k, false, LastOf(name, prev), splits);
    PassesJoin(name, "(" + argument + ")", k, first, prev, 0, false, 0, splits, 0);
    assert name + ("(" + argument + ")") == name + "(" + argument + ")";
  }

  /** What a sign stands before starts with no operator. */
  lemma OperandStart(e: Expression)
    requires Proper(e) && (e.Atom? || e.Call?)
    ensures Print(e) != [] && !IsOperatorChar(Print(e)[0]) && Print(e)[0] != '(' && !IsWhitespace(Print(e)[0])
  {
    if e.Call? { FunctionIsName(e.name); }
  }

  lemma SignNoOperator(sign: char, t: string, k: nat)
    requires (sign == '!' || sign == '+' || sign == '-') && t != [] && !IsOperatorChar(t[0]) && (k == 3 ==> sign == '!')
    ensures OperatorAt([sign] + t, k) == None
  {
    var s := [sign] + t;
    assert s[..2] == [sign, t[0]] && s[..1] == [sign];
  }

  lemma SignPasses(sign: char, t: string, k: nat, first: bool, prev: char, splits: bool)
    requires (sign == '!' || sign == '+' || sign == '-') && t != [] && !IsOperatorChar(t[0]) && prev != '\\'
    requires k == 3 ==> first || sign == '!'
    requires Passes(t, k, false, sign, 0, false, 0, splits)
    ensures Passes([sign] + t, k, first, prev, 0, false, 0, splits)
  {
    var s := [sign] + t;
    if k != 3 || sign == '!' { SignNoOperator(sign, t, k); }
    assert s[1..] == t && IsOperatorChar(sign);
    OperatorCharIsPlain(prev, sign, false, 0);
    NoSplitStep(s, k, first, prev, splits);
  }

  /** A first character that neither splits nor changes the state. */
  lemma NoSplitStep(s: string, k: nat, first: bool, prev: char, splits: bool)
    requires |s| > 1 && !Quoted(prev, s[0], false) && Depth(s[0], false, 0) == 0
    requires SplitsHere(s, k, first, 0, false) == None
    requires Passes(s[1..], k, false, s[0], 0, false, 0, splits)
    ensures Passes(s, k, first, prev, 0, false, 0, splits)
  {
    hide Quoted, Depth, SplitsHere, Passes;
    PassesParts(s, k, first, prev, 0, false, 0, splits);
  }

  lemma LeftPasses(e: Expression, k: nat, first: bool, prev: char, splits: bool)
    requires e.Binary? && Proper(e) && MayPass(e, k, first, splits) && prev != '\\'
    ensures Passes(LeftText(e), k, first, prev, 0, false, 0, splits)
    decreases e, 0
  {
    if ParenLeft(e.left, e.op) {
      PrintPasses(e.left, 0, true, ' ', true);
      ParensPass(Print(e.left), 0, k, first, prev, splits);
    } else {
      PrintPasses(e.left, k, first, prev, splits);
    }
  }

  lemma RightPasses(e: Expression, k: nat, splits: bool)
    requires e.Binary? && Proper(e) && k <= Level(e.op)
    ensures Passes(RightText(e), k, false, ' ', 0, false, 0, false)
    decreases e, 0
  {
    if ParenRight(e.right, e.op) {
      PrintPasses(e.right, 0, true, ' ', true);
      ParensPass(Print(e.right), 0, k, false, ' ', false);
    } else {
      PrintPasses(e.right, k, false, ' ', false);
    }
  }

  lemma SpacedRightPasses(right: string, k: nat, prev: char, splits: bool)
    requires Passes(right, k, false, ' ', 0, false, 0, false)
    ensures Passes(" " + right, k, false, prev, 0, false, 0, splits)
  {
    hide Passes;
    PlainChar(' ', k, false, prev, 0, splits);
    if splits { MoreSplits(right, k, false, ' ', 0, false, 0); }
    PassesJoin([' '], right, k, false, prev, 0, false, 0, splits, 0);
    assert [' '] + right == " " + right;
  }

  lemma SecondTail(a: string, rest: string)
    requires |a| == 2
    ensures (a + rest)[1..] == [a[1]] + rest && (a + rest)[1..][1..] == rest && (a + rest)[1..][0] == (a + rest)[1]
  {}

  /** The operator itself: a split at its own level, nothing at a looser one. */
  lemma OperatorPasses(op: Operator, right: string, k: nat, splits: bool)
    requires k <= Level(op) && (k == Level(op) ==> splits)
    requires Passes(" " + right, k, false, Symbol(op)[|Symbol(op)| - 1], 0, false, 0, splits)
    ensures Passes(Symbol(op) + " " + right, k, false, ' ', 0, false, 0, splits)
  {
    hide Passes, OperatorAt, IsOperatorChar, Depth, Quoted, Level;
    var s, n := Symbol(op) + " " + right, |Symbol(op)|;
    OperatorTail(op);
    assert s[n..] == " " + right && s[0] == Symbol(op)[0] && s[n - 1] == Symbol(op)[n - 1];
    assert Symbol(op) + (" " + right) == s;
    OperatorCharIsPlain(' ', s[0], false, 0);
    OperatorHere(op, " " + right, k);
    if k == Level(op) {
      PassesParts(s, k, false, ' ', 0, false, 0, splits);
    } else {
      if n == 2 {
        SecondTail(Symbol(op), " " + right);
        OperatorCharIsPlain(s[0], s[1], false, 0);
        SecondChar(op, " " + right, k);
        NoSplitStep(s[1..], k, false, s[0], splits);
      }
      NoSplitStep(s, k, false, ' ', splits);
    }
  }

  lemma OperatorHere(op: Operator, rest: string, k: nat)
    requires k <= Level(op) && rest != [] && rest[0] == ' '
    ensures OperatorAt(Symbol(op) + rest, k) == if k == Level(op) then Some(op) else None
  {
    var s := Symbol(op) + rest;
    assert s[..1] == [s[0]] && s[..2] == [s[0], s[1]];
  }

  lemma SecondChar(op: Operator, rest: string, k: nat)
    requires |Symbol(op)| == 2 && k < Level(op) && rest != [] && rest[0] == ' '
    ensures OperatorAt([Symbol(op)[1]] + rest, k) == None
  {
    var s := [Symbol(op)[1]] + rest;
    assert s[..1] == [s[0]] && s[..2] == [s[0], s[1]];
  }

  lemma BinaryPasses(left: string, op: Operator, right: string, k: nat, first: bool, prev: char, splits: bool)
    requires k <= Level(op) && (k == Level(op) ==> splits) && left != []
    requires Passes(left, k, first, prev, 0, false, 0, splits) && Passes(right, k, false, ' ', 0, false, 0, false)
    ensures Passes(left + " " + Symbol(op) + " " + right, k, first, prev, 0, false, 0, splits)
    ensures Passes(left + " ", k, first, prev, 0, false, 0, splits)
  {
    hide Passes, Symbol, Level;
    SpacedRightPasses(right, k, Symbol(op)[|Symbol(op)| - 1], splits) by { OperatorTail(op); }
    OperatorPasses(op, right, k, splits);
    PlainChar(' ', k, false, LastOf(left, prev), 0, splits);
    PassesJoin(left, [' '], k, first, prev, 0, false, 0, splits, 0);
    assert left + [' '] == left + " ";
    PassesJoin(left + " ", Symbol(op) + " " + right, k, first, prev, 0, false, 0, splits, 0);
    assert left + " " + (Symbol(op) + " " + right) == left + " " + Symbol(op) + " " + right;
  }

  lemma ParensEnd(s: string, yes: bool)
    requires NoOuterSpace(s)
    ensures NoOuterSpace(Parens(s, yes))
  {}

  lemma JoinedEnds(left: string, middle: string, right: string)
    requires NoOuterSpace(left) && NoOuterSpace(right)
    ensures NoOuterSpace(left + " " + middle + " " + right)
  {}

  /** Printed text starts and ends with a character that is not space. */
  lemma {:induction false} PrintEnds(e: Expression)
    requires Proper(e)
    ensures NoOuterSpace(Print(e))
    ensures e.Binary? ==> NoOuterSpace(LeftText(e)) && NoOuterSpace(RightText(e))
  {
    hide IsAtom, IsCallName;
    match e
    case Atom(text) => AtomEnds(text);
    case Call(name, argument) => FunctionIsName(name);
    case Signed(_, operand) => PrintEnds(operand);
    case Binary(left, op, right) =>
      hide NoOuterSpace;
      PrintEnds(left);
      PrintEnds(right);
      ParensEnd(Print(left), ParenLeft(left, op));
      ParensEnd(Print(right), ParenRight(right, op));
      JoinedEnds(LeftText(e), Symbol(op), RightText(e));
  }

  lemma AtomEnds(text: string)
    requires IsAtom(text)
    ensures NoOuterSpace(text) && !IsOperatorChar(text[0]) && text[0] != '('
  {}

  lemma TrimsToItself(s: string)
    requires NoOuterSpace(s)
    ensures Trim(s) == s && Trim(s + " ") == s && Trim(" " + s) == s
  {
    assert (" " + s)[1..] == s && TrimStart(s) == s && TrimStart(s + " ") == s + " ";
    assert (s + " ")[..|s|] == s && TrimEnd(s) == s;
  }

  // ----- splits of printed text -----

  lemma NoSplitBelow(e: Expression, k: nat)
    requires Proper(e) && k < LevelOf(e) && k < LEVELS
    ensures SplitOperator(Print(e), k) == None
  {
    PrintPasses(e, k, true, ' ', false);
    ScanOver(Print(e), "", k, true, ' ', 0, false, false, 0);
    assert Print(e) + "" == Print(e);
  }

  /** At its own level a printed operator tree splits at its root. */
  lemma SplitsAtRoot(e: Expression)
    requires e.Binary? && Proper(e)
    ensures SplitOperator(Print(e), Level(e.op)) == Some((|LeftText(e)| + 1, e.op))
  {
    hide Passes, LastSplit, Print;
    var k, op := Level(e.op), e.op;
    LeftPasses(e, k, true, ' ', true);
    RightPasses(e, k, true);
    PrintEnds(e);
    BinaryPasses(LeftText(e), op, RightText(e), k, true, ' ', true);
    RootSplit(LeftText(e), op, RightText(e));
    PrintIs(e);
  }

  lemma PrintIs(e: Expression)
    requires e.Binary?
    ensures Print(e) == LeftText(e) + " " + Symbol(e.op) + " " + RightText(e)
  {}

  lemma QuietToEnd(t: string, k: nat, prev: char, position: nat)
    requires Passes(t, k, false, prev, 0, false, 0, false)
    ensures LastSplit(t, k, false, prev, 0, false, position) == None
  {
    ScanOver(t, "", k, false, prev, 0, false, false, position);
    assert t + "" == t;
    NothingSplits(k, LastOf(t, prev), position + |t|);
  }

  /** The scan from an operator on, when nothing splits after it. */
  lemma OperatorSplits(op: Operator, right: string, position: nat)
    requires Passes(right, Level(op), false, ' ', 0, false, 0, false)
    ensures LastSplit(Symbol(op) + " " + right, Level(op), false, ' ', 0, false, position) == Some((position, op))
  {
    hide Passes, LastSplit, OperatorAt, Quoted, Depth, IsOperatorChar;
    var k, n := Level(op), |Symbol(op)|;
    var rest := Symbol(op) + " " + right;
    OperatorTail(op);
    assert rest == Symbol(op) + (" " + right) && rest[n..] == " " + right && rest[0] == Symbol(op)[0] &&
        rest[n - 1] == Symbol(op)[n - 1];
    OperatorCharIsPlain(' ', rest[0], false, 0);
    OperatorHere(op, " " + right, k);
    SpacedRightPasses(right, k, rest[n - 1], false);
    QuietToEnd(" " + right, k, rest[n - 1], position + n);
    SplitStep(rest, k, false, ' ', 0, false, position);
  }

  lemma RootSplit(left: string, op: Operator, right: string)
    requires left != [] && Passes(left + " ", Level(op), true, ' ', 0, false, 0, true)
    requires Passes(right, Level(op), false, ' ', 0, false, 0, false)
    ensures SplitOperator(left + " " + Symbol(op) + " " + right, Level(op)) == Some((|left| + 1, op))
  {
    hide Passes, LastSplit, Symbol, Level;
    var rest := Symbol(op) + " " + right;
    assert left + " " + rest == left + " " + Symbol(op) + " " + right;
    assert LastOf(left + " ", ' ') == ' ' && |left + " "| == |left| + 1;
    OperatorSplits(op, right, |left| + 1);
    ScanOver(left + " ", rest, Level(op), true, ' ', 0, false, true, 0);
  }

  lemma NothingSplits(k: nat, prev: char, position: nat)
    ensures LastSplit("", k, false, prev, 0, false, position) == None
  {}

  lemma {:induction false} SplitLevels(e: Expression, k: nat)
    requires Proper(e) && k <= LevelOf(e)
    ensures Split(Print(e), k) == if e.Binary? then Some((|LeftText(e)| + 1, e.op)) else None
    decreases LEVELS - k
  {
    hide SplitOperator, Print, Proper;
    if k < LevelOf(e) {
      if k < LEVELS {
        NoSplitBelow(e, k);
        SplitLevels(e, k + 1);
      }
    } else if e.Binary? {
      SplitsAtRoot(e);
    }
  }

  // ----- outer parentheses -----

  lemma {:induction false} CloseAfter(t: string, rest: string, depth: nat, inner: nat, position: nat)
    requires ParenDepth(t, inner) == Some(depth)
    ensures FirstClose(t + rest, inner + 1, position) == FirstClose(rest, depth + 1, position + |t|)
    decreases |t|
  {
    if t == [] {
      assert t + rest == rest;
    } else {
      assert (t + rest)[1..] == t[1..] + rest;
      var next := if t[0] == '(' then inner + 1 else if t[0] == ')' then inner - 1 else inner;
      CloseAfter(t[1..], rest, depth, next, position + 1);
    }
  }

  lemma {:induction false} ParenJoin(a: string, b: string, depth: nat, middle: nat)
    requires ParenDepth(a, depth) == Some(middle)
    ensures ParenDepth(a + b, depth) == ParenDepth(b, middle)
    decreases |a|
  {
    if a == [] {
      assert a + b == b;
    } else {
      assert (a + b)[1..] == a[1..] + b;
      ParenJoin(a[1..], b, if a[0] == '(' then depth + 1 else if a[0] == ')' then depth - 1 else depth, middle);
    }
  }

  lemma {:induction false} ParenDeeper(s: string, depth: nat, end: nat)
    requires ParenDepth(s, depth) == Some(end)
    ensures ParenDepth(s, depth + 1) == Some(end + 1)
    decreases |s|
  {
    if s != [] { ParenDeeper(s[1..], if s[0] == '(' then depth + 1 else if s[0] == ')' then depth - 1 else depth, end);
      }
  }

  lemma {:induction false} NoParens(s: string, depth: nat)
    requires '(' !in s && ')' !in s
    ensures ParenDepth(s, depth) == Some(depth)
  {
    if s != [] { NoParens(s[1..], depth); }
  }

  predicate ParensClosed(s: string) { ParenDepth(s, 0) == Some(0) }

  lemma ClosedJoin(a: string, b: string)
    requires ParensClosed(a) && ParensClosed(b)
    ensures ParensClosed(a + b)
  {
    ParenJoin(a, b, 0, 0);
  }

  lemma ClosedParens(t: string)
    requires ParensClosed(t)
    ensures ParensClosed("(" + t + ")")
  {
    ParenDeeper(t, 0, 0);
    var s := "(" + t + ")";
    assert s[0] == '(' && s[1..] == t + ")";
    ParenJoin(t, ")", 1, 1);
    assert ")"[1..] == "" && ParenDepth(")", 1) == Some(0);
  }

  lemma ParensClose(t: string, rest: string)
    requires ParensClosed(t)
    ensures FirstClose("(" + t + ")" + rest, 0, 0) == Some(|t| + 1)
  {
    var s := "(" + t + ")" + rest;
    var tail := ")" + rest;
    assert s[0] == '(' && s[1..] == t + tail;
    CloseAfter(t, tail, 0, 0, 1);
    assert tail[0] == ')' && FirstClose(tail, 1, 1 + |t|) == Some(|t| + 1);
  }

  lemma NameHasNoParens(name: string)
    requires IsCallName(name)
    ensures '(' !in name && ')' !in name
  {}

  lemma {:induction false} PrintBalances(e: Expression)
    requires Proper(e)
    ensures ParensClosed(Print(e))
  {
    hide ParensClosed, IsCallName, ParenDepth;
    match e
    case Atom(text) => assert ParensClosed(text) by { AtomBalances(text); }
    case Call(name, argument) =>
      PrintBalances(argument);
      NameHasNoParens(name);
      PlainBalances(name);
      ClosedParens(Print(argument));
      ClosedJoin(name, "(" + Print(argument) + ")");
      assert name + ("(" + Print(argument) + ")") == name + "(" + Print(argument) + ")";
    case Signed(sign, operand) =>
      PrintBalances(operand);
      PlainBalances([sign]);
      ClosedJoin([sign], Print(operand));
    case Binary(left, op, right) =>
      PrintBalances(left);
      PrintBalances(right);
      MaybeParens(Print(left), ParenLeft(left, op));
      MaybeParens(Print(right), ParenRight(right, op));
      BinaryBalances(LeftText(e), op, RightText(e));
  }

  lemma AtomBalances(text: string)
    requires IsAtom(text)
    ensures ParensClosed(text)
  {}

  lemma PlainBalances(s: string)
    requires '(' !in s && ')' !in s
    ensures ParensClosed(s)
  {
    NoParens(s, 0);
  }

  lemma MaybeParens(s: string, yes: bool)
    requires ParensClosed(s)
    ensures ParensClosed(Parens(s, yes))
  {
    if yes { ClosedParens(s); }
  }

  lemma BinaryBalances(left: string, op: Operator, right: string)
    requires ParensClosed(left) && ParensClosed(right)
    ensures ParensClosed(left + " " + Symbol(op) + " " + right)
  {
    hide ParensClosed;
    SymbolHasNoParens(op);
    PlainBalances(" " + Symbol(op) + " ");
    ClosedJoin(left, " " + Symbol(op) + " ");
    ClosedJoin(left + (" " + Symbol(op) + " "), right);
    assert left + (" " + Symbol(op) + " ") + right == left + " " + Symbol(op) + " " + right;
  }

  lemma SymbolHasNoParens(op: Operator)
    ensures '(' !in Symbol(op) && ')' !in Symbol(op)
  {}

  lemma {:induction false} CloseStays(s: string, rest: string, depth: nat, position: nat)
    requires FirstClose(s, depth, position).Some?
    ensures FirstClose(s + rest, depth, position) == FirstClose(s, depth, position)
    decreases |s|
  {
    assert (s + rest)[1..] == s[1..] + rest;
    if s[0] == '(' {
      CloseStays(s[1..], rest, depth + 1, position + 1);
    } else if s[0] == ')' {
      if depth != 1 { CloseStays(s[1..], rest, if depth == 0 then 0 else depth - 1, position + 1); }
    } else {
      CloseStays(s[1..], rest, depth, position + 1);
    }
  }

  /** A leading bracket closes before the end. */
  predicate ClosesEarly(s: string) {
    s != [] && (s[0] == '(' ==> FirstClose(s, 0, 0).Some? && FirstClose(s, 0, 0).value < |s| - 1)
  }

  lemma ParensCloseEarly(t: string, after: string)
    requires ParensClosed(t) && after != []
    ensures ClosesEarly("(" + t + ")" + after)
  {
    ParensClose(t, after);
  }

  lemma EarlyStays(s: string, after: string)
    requires ClosesEarly(s)
    ensures ClosesEarly(s + after)
  {
    if s[0] == '(' { CloseStays(s, after, 0, 0); }
  }

  /** The first bracket of a printed tree closes before its end: printed text is never wrapped as a whole. */
  lemma {:induction false} PrintNotWrapped(e: Expression)
    requires Proper(e)
    ensures ClosesEarly(Print(e))
  {
    hide ClosesEarly, IsAtom;
    match e
    case Atom(text) => AtomCloses(text);
    case Call(name, argument) =>
      CallCloses(name, "(" + Print(argument) + ")");
      assert Print(e) == name + ("(" + Print(argument) + ")");
    case Signed(sign, operand) => SignCloses(sign, Print(operand));
    case Binary(left, op, right) =>
      var after := " " + Symbol(op) + " " + RightText(e);
      assert Print(e) == LeftText(e) + after;
      if ParenLeft(left, op) {
        PrintBalances(left);
        ParensCloseEarly(Print(left), after);
      } else {
        PrintNotWrapped(left);
        EarlyStays(Print(left), after);
      }
  }

  lemma AtomCloses(text: string)
    requires IsAtom(text)
    ensures ClosesEarly(text)
  {}

  lemma CallCloses(name: string, rest: string)
    requires IsCallName(name)
    ensures ClosesEarly(name + rest)
  {}

  lemma SignCloses(sign: char, rest: string)
    requires sign == '!' || sign == '+' || sign == '-'
    ensures ClosesEarly([sign] + rest)
  {}

  lemma TrimOuterPrinted(e: Expression, yes: bool)
    requires Proper(e)
    ensures TrimOuter(Parens(Print(e), yes)) == Print(e)
  {
    hide Proper, Print, FirstClose;
    PrintNotWrapped(e);
    PrintEnds(e);
    PrintBalances(e);
    TrimOuterText(Print(e), yes);
  }

  lemma TrimOuterText(t: string, yes: bool)
    requires ClosesEarly(t) && NoOuterSpace(t) && ParensClosed(t)
    ensures TrimOuter(Parens(t, yes)) == t
  {
    hide NoOuterSpace, ParensClosed;
    NotWrapped(t);
    if yes {
      WrappedInParens(t);
      TrimsToItself(t);
      hide Wrapped, Trim, ClosesEarly;
      assert TrimOuter("(" + t + ")") == TrimOuter(Trim(t));
    }
  }

  lemma NotWrapped(t: string)
    requires ClosesEarly(t)
    ensures !Wrapped(t) && TrimOuter(t) == t
  {
    hide FirstClose;
  }

  lemma WrappedInParens(t: string)
    requires ParensClosed(t)
    ensures var s := "(" + t + ")"; Wrapped(s) && s[1..|s| - 1] == t
  {
    hide FirstClose, ParensClosed;
    ParensClose(t, "");
    var s := "(" + t + ")";
    assert s + "" == s && s[0] == '(' && s[|s| - 1] == ')';
  }

  // ----- delimiters -----

  /** From any brackets open, the text leaves the same brackets open, and no quote. */
  ghost predicate Delimited(s: string) {
    forall open :: DelimitAll(Delimiters(open, false, false), s) == Some(Delimiters(open, false, false))
  }

  lemma {:induction false} DelimitJoin(d: Delimiters, a: string, b: string)
    ensures DelimitAll(d, a + b) == match DelimitAll(d, a) case None => None case Some(m) => DelimitAll(m, b)
    decreases |a|
  {
    if a == [] {
      assert a + b == b;
    } else {
      assert (a + b)[0] == a[0] && (a + b)[1..] == a[1..] + b;
      match Delimit(d, a[0])
      case None =>
      case Some(m) => DelimitJoin(m, a[1..], b);
    }
  }

  lemma DelimitedJoin(a: string, b: string)
    requires Delimited(a) && Delimited(b)
    ensures Delimited(a + b)
  {
    hide DelimitAll;
    forall open ensures DelimitAll(Delimiters(open, false, false), a + b) == Some(Delimiters(open, false, false)) {
      DelimitJoin(Delimiters(open, false, false), a, b);
    }
  }

  function Under(base: seq<char>, d: Delimiters): Delimiters { d.(open := base + d.open) }

  lemma DelimitUnder(base: seq<char>, d: Delimiters, c: char)
    requires Delimit(d, c).Some?
    ensures Delimit(Under(base, d), c) == Some(Under(base, Delimit(d, c).value))
  {
    if d.open != [] { assert (base + d.open)[..|base + d.open| - 1] == base + d.open[..|d.open| - 1]; }
    assert base + (d.open + [c]) == base + d.open + [c];
  }

  /** Brackets open outside make no difference. */
  lemma {:induction false} DelimitAllUnder(base: seq<char>, d: Delimiters, s: string)
    requires DelimitAll(d, s).Some?
    ensures DelimitAll(Under(base, d), s) == Some(Under(base, DelimitAll(d, s).value))
    decreases |s|
  {
    hide Delimit;
    if s != [] {
      DelimitUnder(base, d, s[0]);
      DelimitAllUnder(base, Delimit(d, s[0]).value, s[1..]);
    }
  }

  lemma AtomDelimits(text: string)
    requires IsAtom(text)
    ensures Delimited(text)
  {
    forall open ensures DelimitAll(Delimiters(open, false, false), text) == Some(Delimiters(open, false, false)) {
      DelimitAllUnder(open, NoDelimiters, text);
      assert Under(open, NoDelimiters) == Delimiters(open, false, false);
    }
  }

  predicate NoDelimiterChar(c: char) { c != '"' && c != '(' && c != '[' && c != ')' && c != ']' }

  lemma {:induction false} PlainDelimits(s: string)
    requires forall i :: 0 <= i < |s| ==> NoDelimiterChar(s[i])
    ensures Delimited(s)
  {
    if s != [] {
      PlainDelimits(s[1..]);
      assert NoDelimiterChar(s[0]);
    }
  }

  lemma ParensDelimit(t: string)
    requires Delimited(t)
    ensures Delimited("(" + t + ")")
  {
    var s := "(" + t + ")";
    assert s[0] == '(' && s[1..] == t + ")" && ")"[1..] == "";
    forall open ensures DelimitAll(Delimiters(open, false, false), s) == Some(Delimiters(open, false, false)) {
      var inner := Delimiters(open + ['('], false, false);
      DelimitJoin(inner, t, ")");
      assert (open + ['('])[..|open|] == open;
      assert DelimitAll(inner, ")") == Some(Delimiters(open, false, false));
    }
  }

  lemma MaybeDelimits(s: string, yes: bool)
    requires Delimited(s)
    ensures Delimited(Parens(s, yes))
  {
    if yes { ParensDelimit(s); }
  }

  lemma SymbolDelimits(op: Operator)
    ensures Delimited(" " + Symbol(op) + " ")
  {
    PlainDelimits(" " + Symbol(op) + " ");
  }

  lemma NameDelimits(name: string)
    requires IsCallName(name)
    ensures Delimited(name)
  {
    PlainDelimits(name);
  }

  lemma {:induction false} PrintDelimits(e: Expression)
    requires Proper(e)
    ensures Delimited(Print(e))
  {
    hide Delimited, IsAtom, IsCallName;
    match e
    case Atom(text) => AtomDelimits(text);
    case Call(name, argument) =>
      PrintDelimits(argument);
      NameDelimits(name);
      ParensDelimit(Print(argument));
      DelimitedJoin(name, "(" + Print(argument) + ")");
      assert Print(e) == name + ("(" + Print(argument) + ")");
    case Signed(sign, operand) =>
      PrintDelimits(operand);
      PlainDelimits([sign]);
      DelimitedJoin([sign], Print(operand));
    case Binary(left, op, right) =>
      PrintDelimits(left);
      PrintDelimits(right);
      MaybeDelimits(Print(left), ParenLeft(left, op));
      MaybeDelimits(Print(right), ParenRight(right, op));
      PrintIs(e);
      hide Print, Proper;
      TextDelimits(LeftText(e), op, RightText(e));
  }

  lemma TextDelimits(left: string, op: Operator, right: string)
    requires Delimited(left) && Delimited(right)
    ensures Delimited(left + " " + Symbol(op) + " " + right)
  {
    hide Delimited, Symbol;
    SymbolDelimits(op);
    DelimitedJoin(left, " " + Symbol(op) + " ");
    DelimitedJoin(left + (" " + Symbol(op) + " "), right);
    assert left + (" " + Symbol(op) + " ") + right == left + " " + Symbol(op) + " " + right;
  }

  lemma DelimitedMatches(s: string)
    requires Delimited(s)
    ensures DelimitersMatch(s)
  {}

  // ----- main result -----

  lemma {:induction false} FirstIndex(name: string, rest: string)
    requires '(' !in name
    ensures IndexOf(name + "(" + rest, '(') == |name|
  {
    if name != [] {
      assert (name + "(" + rest)[1..] == name[1..] + "(" + rest;
      FirstIndex(name[1..], rest);
    }
  }

  lemma CallIsRead(name: string, argument: string)
    requires IsCallName(name)
    ensures FunctionCall(name + "(" + argument + ")") == Some((name, argument))
  {
    FunctionIsName(name);
    NameHasNoParens(name);
    var s := name + "(" + argument + ")";
    FirstIndex(name, argument + ")");
    assert s == name + "(" + (argument + ")") && s[..|name|] == name && s[|name| + 1..|s| - 1] == argument;
    TrimsToItself(name);
  }

  lemma BinaryParts(left: string, op: Operator, right: string)
    requires NoOuterSpace(left) && NoOuterSpace(right)
    ensures var s := left + " " + Symbol(op) + " " + right; var at := |left| + 1;
      at + |Symbol(op)| <= |s| && Trim(s[..at]) == left && Trim(s[at + |Symbol(op)|..]) == right && left != [] &&
        right != []
  {
    var s := left + " " + Symbol(op) + " " + right;
    var at := |left| + 1;
    assert s[..at] == left + " " && s[at + |Symbol(op)|..] == " " + right;
    TrimsToItself(left);
    TrimsToItself(right);
  }

  /** Evaluating the printed text of a tree gives the value of the tree. */
  lemma {:induction false} PrintedEvaluates<N>(x: Context<N>, e: Expression)
    requires Proper(e)
    ensures EvaluateInner(x, Print(e)) == Meaning(x, e)
  {
    SplitLevels(e, 0);
    match e
    case Atom(text) => AtomEnds(text); AtomIsRead(x, text);
    case Call(name, argument) => PrintedEvaluates(x, argument); CallEvaluates(x, e);
    case Signed(sign, operand) => PrintedEvaluates(x, operand); SignEvaluates(x, e);
    case Binary(left, op, right) =>
      PrintedEvaluates(x, left);
      PrintedEvaluates(x, right);
      BinaryEvaluates(x, e);
  }

  lemma AtomIsRead<N>(x: Context<N>, text: string)
    requires IsAtom(text) && Split(text, 0) == None
    ensures EvaluateInner(x, text) == x.atom(text)
  {
    AtomEnds(text);
    assert FunctionCall(text) == None;
  }

  function SignOf<N>(x: Context<N>, sign: char, r: Outcome<N>): Outcome<N> {
    match r case Err(m) => Err(m) case Ok(v) => ApplyUnary(x, sign, v)
  }

  function CallOf<N>(x: Context<N>, name: string, argument: string, text: string, r: Outcome<N>): Outcome<N> {
    match r case Err(m) => Err(m) case Ok(v) => ApplyFunction(x, name, argument, v, x.atom(text))
  }

  function Combined<N>(x: Context<N>, op: Operator, left: Outcome<N>, right: Outcome<N>): Outcome<N> {
    match left
    case Err(m) => Err(m)
    case Ok(a) =>
      match ShortCircuit(x, op, a)
      case Err(m) => Err(m)
      case Ok(Some(b)) => Ok(Boolean(b))
      case Ok(None) => match right case Err(m) => Err(m) case Ok(b) => Apply(x, a, op, b)
  }

  lemma CallMeans<N>(x: Context<N>, e: Expression)
    requires e.Call?
    ensures CallOf(x, e.name, Print(e.argument), Print(e), Meaning(x, e.argument)) == Meaning(x, e)
  {
    hide Print;
  }

  lemma SignMeans<N>(x: Context<N>, sign: char, v: Outcome<N>)
    ensures SignOf(x, sign, v) == SignedValue(x, sign, v)
  {}

  lemma TruthsMean<N>(x: Context<N>, left: Outcome<N>, op: Operator, right: Outcome<N>)
    requires op == And || op == Or
    ensures Combined(x, op, left, right) == OfTruths(x, left, op, right)
  {}

  lemma ValuesMean<N>(x: Context<N>, v: Value<N>, op: Operator, w: Value<N>)
    requires op != And && op != Or
    ensures Apply(x, v, op, w) == OfValues(x, v, op, w)
  {
    if op == Eq || op == Ne {
      EqualsMean(x, v, w);
      hide Equal, AreEqual;
    } else {
      hide Equal, AreEqual;
    }
  }

  lemma EqualsMean<N>(x: Context<N>, v: Value<N>, w: Value<N>)
    ensures Equal(x, v, w) == AreEqual(x, v, w)
  {}

  lemma CombinedMeans<N>(x: Context<N>, op: Operator, left: Outcome<N>, right: Outcome<N>)
    ensures Combined(x, op, left, right) == Joined(x, left, op, right)
  {
    hide Apply, OfTruths, OfValues;
    if op == And || op == Or { TruthsMean(x, left, op, right); }
    else if left.Ok? && right.Ok? { ValuesMean(x, left.value, op, right.value); }
  }

  lemma CallEvaluates<N>(x: Context<N>, e: Expression)
    requires e.Call? && Proper(e) && Split(Print(e), 0) == None
    requires EvaluateInner(x, Print(e.argument)) == Meaning(x, e.argument)
    ensures EvaluateInner(x, Print(e)) == Meaning(x, e)
  {
    CallIsNamed(e);
    CallMeans(x, e);
    hide Split, TrimOuter, Proper, ApplyFunction, Meaning;
    PrintEnds(e.argument);
    TrimsToItself(Print(e.argument));
    TrimOuterPrinted(e.argument, false);
    FunctionIsName(e.name);
    CallIsRead(e.name, Print(e.argument));
    assert Print(e)[0] == e.name[0];
  }

  lemma CallIsNamed(e: Expression)
    requires e.Call? && Proper(e)
    ensures IsCallName(e.name) && Proper(e.argument)
  {}

  lemma SignEvaluates<N>(x: Context<N>, e: Expression)
    requires e.Signed? && Proper(e) && Split(Print(e), 0) == None
    requires EvaluateInner(x, Print(e.operand)) == Meaning(x, e.operand)
    ensures EvaluateInner(x, Print(e)) == Meaning(x, e)
  {
    SignMeans(x, e.sign, Meaning(x, e.operand));
    hide Split, ApplyUnary, SignedValue;
    assert Print(e)[1..] == Print(e.operand);
  }

  /** Evaluation of a text that splits. */
  lemma SplitEvaluates<N>(x: Context<N>, s: string, at: nat, op: Operator)
    requires Split(s, 0) == Some((at, op)) && at + |Symbol(op)| <= |s|
    requires Trim(s[..at]) != [] && Trim(s[at + |Symbol(op)|..]) != []
    ensures EvaluateInner(x, s) == Combined(x, op, EvaluateInner(x, TrimOuter(Trim(s[..at]))),
      EvaluateInner(x, TrimOuter(Trim(s[at + |Symbol(op)|..]))))
  {
    hide Split, Trim, TrimOuter, Symbol, Apply, ShortCircuit;
  }

  lemma BinaryEvaluates<N>(x: Context<N>, e: Expression)
    requires e.Binary? && Proper(e) && Split(Print(e), 0) == Some((|LeftText(e)| + 1, e.op))
    requires EvaluateInner(x, Print(e.left)) == Meaning(x, e.left)
    requires EvaluateInner(x, Print(e.right)) == Meaning(x, e.right)
    ensures EvaluateInner(x, Print(e)) == Meaning(x, e)
  {
    assert Proper(e.left) && Proper(e.right);
    BinaryMeaning(x, e);
    PrintIs(e);
    hide Split, Trim, TrimOuter, Symbol, NoOuterSpace, ParenLeft, ParenRight, Combined, EvaluateInner, Proper, Meaning,
        Print;
    var l, r := LeftText(e), RightText(e);
    TextsEnd(e);
    hide LeftText, RightText, Parens;
    TextsEvaluate(x, Print(e), l, e.op, r);
  }

  /** Both operands of a tree, printed where they stand, and stripped of their parentheses. */
  lemma TextsEnd(e: Expression)
    requires e.Binary? && Proper(e)
    ensures NoOuterSpace(LeftText(e)) && NoOuterSpace(RightText(e))
    ensures TrimOuter(LeftText(e)) == Print(e.left) && TrimOuter(RightText(e)) == Print(e.right)
  {
    assert Proper(e.left) && Proper(e.right);
    hide NoOuterSpace, TrimOuter, Print, Proper;
    PrintEnds(e.left);
    PrintEnds(e.right);
    ParensEnd(Print(e.left), ParenLeft(e.left, e.op));
    ParensEnd(Print(e.right), ParenRight(e.right, e.op));
    TrimOuterPrinted(e.left, ParenLeft(e.left, e.op));
    TrimOuterPrinted(e.right, ParenRight(e.right, e.op));
  }

  lemma TextsEvaluate<N>(x: Context<N>, s: string, left: string, op: Operator, right: string)
    requires s == left + " " + Symbol(op) + " " + right && Split(s, 0) == Some((|left| + 1, op))
    requires NoOuterSpace(left) && NoOuterSpace(right)
    ensures EvaluateInner(x, s) ==
        Combined(x, op, EvaluateInner(x, TrimOuter(left)), EvaluateInner(x, TrimOuter(right)))
  {
    hide Split, Trim, TrimOuter, Symbol, NoOuterSpace, Combined, EvaluateInner;
    BinaryParts(left, op, right);
    SplitEvaluates(x, s, |left| + 1, op);
  }

  lemma BinaryMeaning<N>(x: Context<N>, e: Expression)
    requires e.Binary?
    ensures Meaning(x, e) == Combined(x, e.op, Meaning(x, e.left), Meaning(x, e.right))
  {
    hide Combined, Joined;
    CombinedMeans(x, e.op, Meaning(x, e.left), Meaning(x, e.right));
  }

  /** The evaluator respects precedence, left associativity and short-circuiting: whole expressions mean their trees. */
  lemma EvaluatorReadsPrinter<N>(x: Context<N>, e: Expression)
    requires Proper(e)
    ensures Evaluate(x, Print(e)) == Meaning(x, e)
  {
    hide Print, Proper, EvaluateInner, TrimOuter, DelimitersMatch;
    PrintEnds(e);
    TrimsToItself(Print(e));
    PrintDelimits(e);
    DelimitedMatches(Print(e));
    TrimOuterPrinted(e, false);
    PrintedEvaluates(x, e);
  }

  function Nested(t: string, n: nat): string { if n == 0 then t else "(" + Nested(t, n - 1) + ")" }

  lemma {:induction false} NestedCloses(t: string, n: nat)
    requires ParensClosed(t) && NoOuterSpace(t) && Delimited(t)
    ensures ParensClosed(Nested(t, n)) && NoOuterSpace(Nested(t, n)) && Delimited(Nested(t, n))
  {
    hide ParensClosed, Delimited;
    if n > 0 {
      NestedCloses(t, n - 1);
      ClosedParens(Nested(t, n - 1));
      ParensDelimit(Nested(t, n - 1));
    }
  }

  lemma {:induction false} NestedTrims(t: string, n: nat)
    requires ClosesEarly(t) && NoOuterSpace(t) && ParensClosed(t) && Delimited(t)
    ensures TrimOuter(Nested(t, n)) == t
  {
    hide NoOuterSpace, ParensClosed, Delimited;
    if n == 0 {
      NotWrapped(t);
    } else {
      NestedCloses(t, n - 1);
      WrappedInParens(Nested(t, n - 1));
      TrimsToItself(Nested(t, n - 1));
      NestedTrims(t, n - 1);
      hide Wrapped, Trim, ClosesEarly;
    }
  }

  /** Any number of parentheses around the whole makes no difference. */
  lemma EvaluatorReadsNested<N>(x: Context<N>, e: Expression, n: nat)
    requires Proper(e)
    ensures Evaluate(x, Nested(Print(e), n)) == Meaning(x, e)
  {
    PrintNotWrapped(e);
    PrintEnds(e);
    PrintBalances(e);
    PrintDelimits(e);
    hide Print, Proper, EvaluateInner, TrimOuter, DelimitersMatch, ParensClosed, Delimited, ClosesEarly, Nested;
    NestedCloses(Print(e), n);
    NestedTrims(Print(e), n);
    TrimsToItself(Nested(Print(e), n));
    DelimitedMatches(Nested(Print(e), n));
    PrintedEvaluates(x, e);
  }

  // ----- where it stops -----

  lemma {:induction false} NoSplits(s: string, k: nat)
    requires forall j :: k <= j < LEVELS ==> Passes(s, j, true, ' ', 0, false, 0, false)
    ensures Split(s, k) == None
    decreases LEVELS - k
  {
    hide Passes, LastSplit;
    if k < LEVELS {
      ScanOver(s, "", k, true, ' ', 0, false, false, 0);
      assert s + "" == s;
      NothingSplits(k, LastOf(s, ' '), |s|);
      NothingAtStart(k);
      NoSplits(s, k + 1);
    }
  }

  lemma NothingAtStart(k: nat)
    ensures LastSplit("", k, true, ' ', 0, false, 0) == None
  {}

  function Count(s: string, c: char): nat {
    if s == [] then 0 else Count(s[..|s| - 1], c) + if s[|s| - 1] == c then 1 else 0
  }

  lemma {:induction false} CountAppend(s: string, t: string, c: char)
    ensures Count(s + t, c) == Count(s, c) + Count(t, c)
  {
    if t == [] {
      assert s + t == s;
    } else {
      assert (s + t)[..|s + t| - 1] == s + t[..|t| - 1];
      CountAppend(s, t[..|t| - 1], c);
    }
  }

  /** Without quotes, what is open afterwards is what was opened and not closed. */
  lemma {:induction false} DelimitersCount(d: Delimiters, s: string)
    requires '"' !in s && !d.quoted && DelimitAll(d, s).Some?
    ensures !DelimitAll(d, s).value.quoted
    ensures Count(DelimitAll(d, s).value.open, '(') + Count(s, ')') == Count(d.open, '(') + Count(s, '(')
    decreases |s|
  {
    if s != [] {
      var next := Delimit(d, s[0]).value;
      DelimitersCount(next, s[1..]);
      assert s == [s[0]] + s[1..] && [s[0]][..0] == [];
      CountAppend([s[0]], s[1..], '(');
      CountAppend([s[0]], s[1..], ')');
      if s[0] == '(' || s[0] == '[' { assert next.open[..|next.open| - 1] == d.open; }
    }
  }

  /** Text with more of one parenthesis than of the other, and no quotes, is not evaluated at all. */
  lemma UnbalancedIsRefused<N>(x: Context<N>, expression: string)
    requires '"' !in expression && Trim(expression) == expression
    requires Count(expression, '(') != Count(expression, ')')
    ensures Evaluate(x, expression).Err?
  {
    hide EvaluateInner, TrimOuter, Trim;
    if DelimitersMatch(expression) { DelimitersCount(NoDelimiters, expression); }
  }

  /** A sign does not reach into parentheses: they go to the atom reader, brackets and all, whatever they hold. */
  lemma SignStopsAtParens<N>(x: Context<N>, sign: char, e: Expression)
    requires Proper(e) && (sign == '!' || sign == '+' || sign == '-')
    ensures EvaluateInner(x, [sign] + ("(" + Print(e) + ")")) == SignOf(x, sign, x.atom("(" + Print(e) + ")"))
  {
    hide Passes, ApplyUnary, Split, Print, Proper, FunctionCall;
    var t := "(" + Print(e) + ")";
    PrintPasses(e, 0, true, ' ', true);
    forall k | 0 <= k < LEVELS
      ensures Passes(t, k, true, ' ', 0, false, 0, false) && Passes([sign] + t, k, true, ' ', 0, false, 0, false) {
      ParensPass(Print(e), 0, k, true, ' ', false);
      ParensPass(Print(e), 0, k, false, sign, false);
      SignPasses(sign, t, k, true, ' ', false);
    }
    NoSplits(t, 0);
    NoSplits([sign] + t, 0);
    assert ([sign] + t)[1..] == t;
    ParensAreNoCall(Print(e));
  }

  lemma ParensAreNoCall(t: string)
    ensures FunctionCall("(" + t + ")") == None
  {
    var s := "(" + t + ")";
    assert s[0] == '(' && s[..0] == "";
  }
}
