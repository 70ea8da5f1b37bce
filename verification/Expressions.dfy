/**
 Expression trees, their printing with minimal parentheses, and the proof that evaluating the text evaluates the
 tree.
 */
module Expressions {
  import opened Prelude
  import opened Literals
  import opened Evaluator

  /** Operands are atoms, calls of known functions, and signs applied to either. */
  datatype Expression =
    | Atom(text: string)
    | Call(name: string, argument: Expression)
    | Signed(sign: char, operand: Expression)
    | Binary(left: Expression, op: Operator, right: Expression)

  // ----- printing -----

  function LevelOf(e: Expression): nat { if e.Binary? then Level(e.op) else LEVELS }

  /** Does the printed text start with a `+` or `-` sign? */
  predicate StartsSigned(e: Expression) {
    match e
    case Signed(sign, _) => sign != '!'
    case Binary(left, op, _) => LevelOf(left) >= Level(op) && StartsSigned(left)
    case _ => false
  }

  /**
   The left operand needs parentheses when it binds looser; the right one also when as loose, or signed inside
   arithmetic.
   */
  predicate ParenLeft(left: Expression, op: Operator) { LevelOf(left) < Level(op) }

  predicate ParenRight(right: Expression, op: Operator) {
    LevelOf(right) <= Level(op) || (Level(op) >= 3 && StartsSigned(right))
  }

  function Parens(s: string, yes: bool): string { if yes then "(" + s + ")" else s }

  function Print(e: Expression): string {
    match e
    case Atom(text) => text
    case Call(name, argument) => name + "(" + Print(argument) + ")"
    case Signed(sign, operand) => [sign] + Print(operand)
    case Binary(left, op, right) =>
      Parens(Print(left), ParenLeft(left, op)) + " " + Symbol(op) + " " + Parens(Print(right), ParenRight(right, op))
  }

  // ----- meaning -----

  /** A value where a truth value is asked for. */
  function AsTruth<N>(x: Context<N>, v: Outcome<N>): Result<bool, string> {
    match v
    case Err(m) => Err(m)
    case Ok(Boolean(b)) => Ok(b)
    case Ok(Number(n)) => Ok(x.truthy(n))
    case Ok(Words(_)) => Err("text is not a boolean value")
  }

  /** A value where a number is asked for. */
  function AsNumber<N>(x: Context<N>, v: Outcome<N>): Result<N, string> {
    match v
    case Err(m) => Err(m)
    case Ok(Number(n)) => Ok(n)
    case Ok(Boolean(b)) => Ok(x.ofBoolean(b))
    case Ok(Words(_)) => Err("text is not a numeric value")
  }

  /** Two values of a kind are compared as such, others as numbers. */
  function AreEqual<N>(x: Context<N>, v: Value<N>, w: Value<N>): Result<bool, string> {
    match (v, w)
    case (Words(s), Words(t)) => Ok(s == t)
    case (Boolean(b), Boolean(c)) => Ok(b <==> c)
    case _ =>
      match (AsNumber(x, Ok(v)), AsNumber(x, Ok(w)))
      case (Err(m), _) => Err(m)
      case (Ok(_), Err(m)) => Err(m)
      case (Ok(a), Ok(b)) => Ok(x.equal(a, b))
  }

  function TruthValue<N>(r: Result<bool,
    string>): Outcome<N> { match r case Err(m) => Err(m) case Ok(b) => Ok(Boolean(b)) }

  /** What an operator makes of two numbers. */
  function OfNumbers<N>(x: Context<N>, a: N, op: Operator, b: N): Value<N> {
    if op == Lt then Boolean(x.less(a, b))
    else if op == Le then Boolean(x.atMost(a, b))
    else if op == Gt then Boolean(x.less(b, a))
    else if op == Ge then Boolean(x.atMost(b, a))
    else Number(x.compute(op, a, b))
  }

  /** `&&` and `||`: the right side counts only if the left one does not decide. */
  function OfTruths<N>(x: Context<N>, left: Outcome<N>, op: Operator, right: Outcome<N>): Outcome<N> {
    match AsTruth(x, left)
    case Err(m) => Err(m)
    case Ok(b) => if b == (op == And) then TruthValue(AsTruth(x, right)) else Ok(Boolean(b))
  }

  function Negated(r: Result<bool, string>): Result<bool, string> { match r case Err(m) => Err(m) case Ok(b) => Ok(!b) }

  /** Any other operator, of two values. */
  function OfValues<N>(x: Context<N>, v: Value<N>, op: Operator, w: Value<N>): Outcome<N> {
    if op == Eq then TruthValue(AreEqual(x, v, w))
    else if op == Ne then TruthValue(Negated(AreEqual(x, v, w)))
    else
      match (AsNumber(x, Ok(v)), AsNumber(x, Ok(w)))
      case (Err(m), _) => Err(m)
      case (Ok(_), Err(m)) => Err(m)
      case (Ok(a), Ok(b)) => Ok(OfNumbers(x, a, op, b))
  }

  function Joined<N>(x: Context<N>, left: Outcome<N>, op: Operator, right: Outcome<N>): Outcome<N> {
    if op == And || op == Or then OfTruths(x, left, op, right)
    else
      match (left, right)
      case (Err(m), _) => Err(m)
      case (Ok(_), Err(m)) => Err(m)
      case (Ok(v), Ok(w)) => OfValues(x, v, op, w)
  }

  function SignedValue<N>(x: Context<N>, sign: char, v: Outcome<N>): Outcome<N> {
    if sign == '!' then TruthValue(Negated(AsTruth(x, v)))
    else match AsNumber(x, v) case Err(m) => Err(m) case Ok(n) => Ok(Number(if sign == '-' then x.negate(n) else n))
  }

  /** A known function of the number its argument stands for. */
  function FunctionValue<N>(x: Context<N>, name: string, argument: string, n: N): Value<N> {
    if name == "abs" then Number(x.absolute(n))
    else Boolean(if name == "isnan" then x.isNan(n) else if name == "isfinite" then x.isFinite(n)
      else x.changed(argument, n))
  }

  /** The value of a tree. */
  function Meaning<N>(x: Context<N>, e: Expression): Outcome<N> {
    match e
    case Atom(text) => x.atom(text)
    case Call(name, argument) =>
      var v := Meaning(x, argument);
      if v.Err? then v
      else if name !in {"abs", "isnan", "isfinite", "changed"} then x.atom(Print(e))
      else
        (match AsNumber(x, v)
         case Err(m) => Err(m)
         case Ok(n) => Ok(FunctionValue(x, name, Print(argument), n)))
    case Signed(sign, operand) => SignedValue(x, sign, Meaning(x, operand))
    case Binary(left, op, right) => Joined(x, Meaning(x, left), op, Meaning(x, right))
  }

  // ----- text that an operator scan passes over -----

  /** Characters operators are made of. */
  predicate IsOperatorChar(c: char) {
    c == '|' || c == '&' || c == '=' || c == '!' || c == '<' || c == '>' || c == '+' || c == '-' || c == '*' ||
      c == '/' || c == '%'
  }

  /** How far one step of the scan goes: over an operator it splits at, or over one character. */
  function Width(t: string, k: nat, first: bool, depth: int, quoted: bool): (w: nat)
    requires t != []
    ensures 1 <= w <= |t|
  {
    match SplitsHere(t, k, first, depth, quoted)
    case None => 1
    case Some(op) => |Symbol(op)|
  }

  /**
   Scanned for operators of level `k` from depth `depth`, the text stays at depth zero or above, ends unquoted at
   depth `end`, and splits only if `splits` allows it. Its last character is no operator character.
   */
  ghost predicate Passes(t: string, k: nat, first: bool, prev: char, depth: int, quoted: bool, end: int, splits: bool)
    decreases |t|
  {
    if t == [] then depth == end && !quoted && prev != '\\'
    else
      var q := Quoted(prev, t[0], quoted);
      var d := Depth(t[0], q, depth);
      var w := Width(t, k, first, d, q);
      && PassesHere(t, k, first, d, q, splits) && Passes(t[w..], k, false, t[w - 1], d, q, end, splits)
  }

  predicate PassesHere(t: string, k: nat, first: bool, d: int, q: bool, splits: bool)
    requires t != []
  {
    && d >= 0 && (|t| == 1 && d == 0 && !q ==> !IsOperatorChar(t[0]))
    && (SplitsHere(t, k, first, d, q).Some? ==> splits && |t| > Width(t, k, first, d, q))
  }

  function LastOf(t: string, prev: char): char { if t == [] then prev else t[|t| - 1] }

  /** What follows does not change which operators a text that passes contains. */
  lemma OperatorStays(t: string, rest: string, k: nat)
    requires t != [] && (|t| == 1 ==> !IsOperatorChar(t[0]))
    ensures OperatorAt(t + rest, k) == OperatorAt(t, k)
  {
    assert |t| >= 2 ==> (t + rest)[..2] == t[..2];
    assert (t + rest)[..1] == t[..1];
    assert |t| == 1 && rest != [] ==> (t + rest)[..2] == [t[0], rest[0]];
  }

  lemma SplitsStay(t: string, rest: string, k: nat, first: bool, depth: int, quoted: bool)
    requires t != [] && (|t| == 1 && depth == 0 && !quoted ==> !IsOperatorChar(t[0]))
    ensures SplitsHere(t + rest, k, first, depth, quoted) == SplitsHere(t, k, first, depth, quoted)
  {
    if depth == 0 && !quoted { OperatorStays(t, rest, k); }
  }

  lemma OperatorTail(op: Operator)
    ensures 1 <= |Symbol(op)| <= 2 && forall c :: c in Symbol(op) ==> IsOperatorChar(c)
  {}

  lemma HereStays(t: string, rest: string, k: nat, first: bool, d: int, q: bool, splits: bool)
    requires t != [] && PassesHere(t, k, first, d, q, splits)
    ensures SplitsHere(t + rest, k, first, d, q) == SplitsHere(t, k, first, d, q)
    ensures Width(t + rest, k, first, d, q) == Width(t, k, first, d, q)
    ensures PassesHere(t + rest, k, first, d, q, splits)
  {
    SplitsStay(t, rest, k, first, d, q);
    assert (t + rest)[0] == t[0];
  }

  lemma SplitStep(t: string, k: nat, first: bool, prev: char, depth: int, quoted: bool, position: nat)
    requires t != []
    ensures var q := Quoted(prev, t[0], quoted);
      var d := Depth(t[0], q, depth);
      var w := Width(t, k, first, d, q);
      var later := LastSplit(t[w..], k, false, t[w - 1], d, q, position + w);
      LastSplit(t, k, first, prev, depth, quoted, position) ==
        match SplitsHere(t, k, first, d, q)
        case None => later
        case Some(op) => if later.Some? then later else Some((position, op))
  {
    hide OperatorAt, Symbol, Quoted, Depth;
  }

  lemma Slices(t: string, rest: string, w: nat)
    requires 1 <= w <= |t|
    ensures (t + rest)[w..] == t[w..] + rest && (t + rest)[w - 1] == t[w - 1] && (t + rest)[0] == t[0]
    ensures t[w..] != [] ==> t[w..][|t[w..]| - 1] == t[|t| - 1]
    ensures t[w..] == [] ==> t[w - 1] == t[|t| - 1]
  {}

  /** Scanning over passing text: a later split wins, and without splits there is nothing else. */
  lemma {:induction false} ScanOver(t: string, rest: string, k: nat, first: bool, prev: char, depth: int, quoted: bool,
                          splits: bool, position: nat)
    requires Passes(t, k, first, prev, depth, quoted, 0, splits)
    requires LastSplit(rest, k, first && t == [], LastOf(t, prev), 0, false, position + |t|).Some? || !splits
    ensures LastSplit(t + rest, k, first, prev, depth, quoted, position)
         == LastSplit(rest, k, first && t == [], LastOf(t, prev), 0, false, position + |t|)
    decreases |t|
  {
    hide SplitsHere, Width, Quoted, Depth, LastSplit;
    if t == [] {
      assert t + rest == rest;
    } else {
      var q := Quoted(prev, t[0], quoted);
      var d := Depth(t[0], q, depth);
      var w := Width(t, k, first, d, q);
      HereStays(t, rest, k, first, d, q, splits);
      SplitStep(t + rest, k, first, prev, depth, quoted, position);
      Slices(t, rest, w);
      ScanOver(t[w..], rest, k, false, t[w - 1], d, q, splits, position + w);
    }
  }

  /** One step of a scan that passes. */
  lemma PassesParts(t: string, k: nat, first: bool, prev: char, depth: int, quoted: bool, end: int, splits: bool)
    requires t != []
    ensures var q := Quoted(prev, t[0], quoted);
      var d := Depth(t[0], q, depth);
      var w := Width(t, k, first, d, q);
      Passes(t, k, first, prev, depth, quoted, end, splits) <==>
        PassesHere(t, k, first, d, q, splits) && Passes(t[w..], k, false, t[w - 1], d, q, end, splits)
  {}

  /** Passing texts can be joined. */
  lemma {:induction false} PassesJoin(a: string, b: string, k: nat, first: bool, prev: char, depth: int, quoted: bool,
                          end: int, splits: bool, middle: int)
    requires Passes(a, k, first, prev, depth, quoted, middle, splits)
    requires Passes(b, k, first && a == [], LastOf(a, prev), middle, false, end, splits)
    ensures Passes(a + b, k, first, prev, depth, quoted, end, splits)
    decreases |a|
  {
    hide SplitsHere, Width, Quoted, Depth, PassesHere;
    if a == [] {
      assert a + b == b;
    } else {
      PassesParts(a, k, first, prev, depth, quoted, middle, splits);
      PassesParts(a + b, k, first, prev, depth, quoted, end, splits);
      hide Passes;
      var q := Quoted(prev, a[0], quoted);
      var d := Depth(a[0], q, depth);
      var w := Width(a, k, first, d, q);
      HereStays(a, b, k, first, d, q, splits);
      Slices(a, b, w);
      PassesJoin(a[w..], b, k, false, a[w - 1], d, q, end, splits, middle);
    }
  }

  lemma {:induction false} AllowingSplits(t: string, k: nat, first: bool, prev: char, depth: int, quoted: bool,
                          end: int)
    requires Passes(t, k, first, prev, depth, quoted, end, false)
    ensures Passes(t, k, first, prev, depth, quoted, end, true)
    decreases |t|
  {
    if t != [] {
      var q := Quoted(prev, t[0], quoted);
      var d := Depth(t[0], q, depth);
      AllowingSplits(t[1..], k, false, t[0], d, q, end);
    }
  }

  lemma OperatorIsThere(t: string, k: nat)
    ensures match OperatorAt(t, k)
      case None => true
      case Some(op) => (StartsWith(t, Symbol(op)) && (k < LEVELS ==> Level(op) == k))
  {}

  lemma OperatorCharIsPlain(prev: char, c: char, quoted: bool, depth: int)
    requires IsOperatorChar(c)
    ensures Quoted(prev, c, quoted) == quoted && Depth(c, quoted, depth) == depth
  {}

  /** One level deeper there is no split. */
  lemma DeeperStep(t: string, k: nat, first: bool, prev: char, depth: int, quoted: bool, end: int)
    requires t != []
    requires var q := Quoted(prev, t[0], quoted); var d := Depth(t[0], q, depth);
      d >= 0 && Passes(t[1..], k, false, t[0], d + 1, q, end, false)
    ensures Passes(t, k, first, prev, depth + 1, quoted, end, false)
  {}

  lemma {:induction false} DeeperIsQuiet(t: string, k: nat, k': nat, first: bool, prev: char, depth: int, quoted: bool,
                          end: int, splits: bool)
    requires Passes(t, k, first, prev, depth, quoted, end, splits)
    ensures Passes(t, k', false, prev, depth + 1, quoted, end + 1, false)
    decreases |t|
  {
    hide SplitsHere, Width, Quoted, Depth;
    if t != [] {
      var q := Quoted(prev, t[0], quoted);
      var d := Depth(t[0], q, depth);
      var w := Width(t, k, first, d, q);
      DeeperIsQuiet(t[w..], k, k', false, t[w - 1], d, q, end, splits);
      WideStep(t, k, first, d, q);
      if w == 2 {
        assert t[1..][1..] == t[2..] && t[1..][0] == t[1];
        OperatorCharIsPlain(t[0], t[1], q, d);
        DeeperStep(t[1..], k', false, t[0], d, q, end + 1);
      }
      DeeperStep(t, k', false, prev, depth, quoted, end + 1);
    }
  }

  /** A step of two characters is over an operator at depth zero. */
  lemma WideStep(t: string, k: nat, first: bool, d: int, q: bool)
    requires t != []
    ensures Width(t, k, first, d, q) <= 2
    ensures Width(t, k, first, d, q) == 2 ==> d == 0 && !q && IsOperatorChar(t[1])
  {
    if SplitsHere(t, k, first, d, q).Some? {
      OperatorIsThere(t, k);
      OperatorTail(SplitsHere(t, k, first, d, q).value);
      assert |t| >= 2 ==> t[..2][1] == t[1];
    }
  }
}
