/** Evaluation over integers: the value of a printed expression in Dafny's own numbers and truth values. */
module Arithmetic {
  import opened Prelude
  import opened Evaluator
  import opened Expressions
  import opened ExpressionRuns

  /** The numbers are integers and are compared and combined as such. */
  ghost predicate OverIntegers(x: Context<int>) {
    && (forall a, b :: x.less(a, b) <==> a < b)
    && (forall a, b :: x.atMost(a, b) <==> a <= b)
    && (forall a, b :: x.equal(a, b) <==> a == b)
    && (forall a, b :: x.compute(Add, a, b) == a + b)
    && (forall a, b :: x.compute(Sub, a, b) == a - b)
    && (forall a, b :: x.compute(Mul, a, b) == a * b)
    && (forall a :: x.negate(a) == -a)
    && (forall a :: x.absolute(a) == if a < 0 then -a else a)
  }

  /** A tree of sums, differences and products; an atom that is one may still fail to be read. */
  predicate IsSum(x: Context<int>, e: Expression) {
    match e
    case Atom(text) => x.atom(text).Ok? ==> x.atom(text).value.Number?
    case Call(name, argument) => name == "abs" && IsSum(x, argument)
    case Signed(sign, operand) => sign != '!' && IsSum(x, operand)
    case Binary(left, op, right) => (op == Add || op == Sub || op == Mul) && IsSum(x, left) && IsSum(x, right)
  }

  /** A tree of comparisons of sums, joined by `&&`, `||` and `!`. */
  predicate IsProposition(x: Context<int>, e: Expression) {
    match e
    case Atom(text) => x.atom(text).Ok? ==> x.atom(text).value.Boolean?
    case Call(_, _) => false
    case Signed(sign, operand) => sign == '!' && IsProposition(x, operand)
    case Binary(left, op, right) =>
      if op == And || op == Or then IsProposition(x, left) && IsProposition(x, right)
      else op in {Eq, Ne, Lt, Le, Gt, Ge} && IsSum(x, left) && IsSum(x, right)
  }

  function IntegerJoin(a: Result<int, string>, op: Operator, b: Result<int, string>): Result<int, string> {
    match (a, b)
    case (Err(m), _) => Err(m)
    case (Ok(_), Err(m)) => Err(m)
    case (Ok(i), Ok(j)) => Ok(if op == Add then i + j else if op == Sub then i - j else i * j)
  }

  /** The integer a sum denotes, or the first error from the left. */
  function IntegerOf(x: Context<int>, e: Expression): Result<int, string>
    requires IsSum(x, e)
  {
    match e
    case Atom(text) => (match x.atom(text) case Err(m) => Err(m) case Ok(v) => Ok(v.n))
    case Call(_, argument) =>
      (match IntegerOf(x, argument) case Err(m) => Err(m) case Ok(a) => Ok(if a < 0 then -a else a))
    case Signed(sign, operand) =>
      (match IntegerOf(x, operand) case Err(m) => Err(m) case Ok(a) => Ok(if sign == '-' then -a else a))
    case Binary(left, op, right) => IntegerJoin(IntegerOf(x, left), op, IntegerOf(x, right))
  }

  predicate Compares(a: int, op: Operator, b: int) {
    match op
    case Eq => a == b
    case Ne => a != b
    case Lt => a < b
    case Le => a <= b
    case Gt => a > b
    case Ge => a >= b
    case _ => false
  }

  function Compared(a: Result<int, string>, op: Operator, b: Result<int, string>): Result<bool, string> {
    match (a, b)
    case (Err(m), _) => Err(m)
    case (Ok(_), Err(m)) => Err(m)
    case (Ok(i), Ok(j)) => Ok(Compares(i, op, j))
  }

  /** Conjunction and disjunction; where the left side decides, an error on the right goes unnoticed. */
  function TruthJoin(a: Result<bool, string>, op: Operator, b: Result<bool, string>): Result<bool, string> {
    match (a, b)
    case (Err(m), _) => Err(m)
    case (Ok(p), Err(m)) => if op == And && !p then Ok(false) else if op == Or && p then Ok(true) else Err(m)
    case (Ok(p), Ok(q)) => Ok(if op == And then p && q else p || q)
  }

  /** The truth value of a proposition. */
  function TruthOf(x: Context<int>, e: Expression): Result<bool, string>
    requires IsProposition(x, e)
  {
    match e
    case Atom(text) => (match x.atom(text) case Err(m) => Err(m) case Ok(v) => Ok(v.b))
    case Signed(_, operand) => (match TruthOf(x, operand) case Err(m) => Err(m) case Ok(b) => Ok(!b))
    case Binary(left, op, right) =>
      if op == And || op == Or then TruthJoin(TruthOf(x, left), op, TruthOf(x, right))
      else Compared(IntegerOf(x, left), op, IntegerOf(x, right))
  }

  function AsNumberValue(r: Result<int, string>): Outcome<int> {
    match r case Err(m) => Err(m) case Ok(a) => Ok(Number(a))
  }

  lemma SumJoins(x: Context<int>, a: Result<int, string>, op: Operator, b: Result<int, string>)
    requires OverIntegers(x) && (op == Add || op == Sub || op == Mul)
    ensures Joined(x, AsNumberValue(a), op, AsNumberValue(b)) == AsNumberValue(IntegerJoin(a, op, b))
  {}

  lemma ComparisonJoins(x: Context<int>, a: Result<int, string>, op: Operator, b: Result<int, string>)
    requires OverIntegers(x) && op in {Eq, Ne, Lt, Le, Gt, Ge}
    ensures Joined(x, AsNumberValue(a), op, AsNumberValue(b)) == TruthValue(Compared(a, op, b))
  {}

  lemma TruthJoins(x: Context<int>, a: Result<bool, string>, op: Operator, b: Result<bool, string>)
    requires op == And || op == Or
    ensures Joined(x, TruthValue(a), op, TruthValue(b)) == TruthValue(TruthJoin(a, op, b))
  {}

  lemma {:induction false} SumMeans(x: Context<int>, e: Expression)
    requires OverIntegers(x) && IsSum(x, e)
    ensures Meaning(x, e) == AsNumberValue(IntegerOf(x, e))
  {
    hide Joined, IntegerJoin;
    match e
    case Atom(_) =>
    case Call(_, argument) => SumMeans(x, argument);
    case Signed(_, operand) => SumMeans(x, operand);
    case Binary(left, op, right) =>
      SumMeans(x, left);
      SumMeans(x, right);
      SumJoins(x, IntegerOf(x, left), op, IntegerOf(x, right));
  }

  lemma {:induction false} PropositionMeans(x: Context<int>, e: Expression)
    requires OverIntegers(x) && IsProposition(x, e)
    ensures Meaning(x, e) == TruthValue(TruthOf(x, e))
  {
    hide Joined, TruthJoin, Compared, OverIntegers, IntegerOf;
    match e
    case Atom(_) =>
    case Signed(_, operand) => PropositionMeans(x, operand);
    case Binary(left, op, right) =>
      if op == And || op == Or {
        PropositionMeans(x, left);
        PropositionMeans(x, right);
        TruthJoins(x, TruthOf(x, left), op, TruthOf(x, right));
      } else {
        SumMeans(x, left);
        SumMeans(x, right);
        ComparisonJoins(x, IntegerOf(x, left), op, IntegerOf(x, right));
      }
  }

  /** The text of a sum evaluates to its integer, that of a proposition to its truth value. */
  lemma EvaluatorCalculates(x: Context<int>, e: Expression)
    requires OverIntegers(x) && Proper(e)
    ensures IsSum(x, e) ==> Evaluate(x, Print(e)) == AsNumberValue(IntegerOf(x, e))
    ensures IsProposition(x, e) ==> Evaluate(x, Print(e)) == TruthValue(TruthOf(x, e))
  {
    EvaluatorReadsPrinter(x, e);
    if IsSum(x, e) { SumMeans(x, e); }
    if IsProposition(x, e) { PropositionMeans(x, e); }
  }

  // ----- in text -----

  function Text(left: string, symbol: string, right: string): string { left + " " + symbol + " " + right }

  /** Loosest first: `||`, `&&`, comparisons, sums, products; operators as loose as each other group to the left. */
  lemma TextsOfTrees(a: string, b: string, c: string)
    ensures Print(Binary(Atom(a), Or, Binary(Atom(b), And, Atom(c)))) == Text(a, "||", Text(b, "&&", c))
    ensures Print(Binary(Binary(Atom(a), And, Atom(b)), Or, Atom(c))) == Text(Text(a, "&&", b), "||", c)
    ensures Print(Binary(Atom(a), And, Binary(Atom(b), Eq, Atom(c)))) == Text(a, "&&", Text(b, "==", c))
    ensures Print(Binary(Atom(a), Lt, Binary(Atom(b), Add, Atom(c)))) == Text(a, "<", Text(b, "+", c))
    ensures Print(Binary(Atom(a), Add, Binary(Atom(b), Mul, Atom(c)))) == Text(a, "+", Text(b, "*", c))
    ensures Print(Binary(Binary(Atom(a), Mul, Atom(b)), Add, Atom(c))) == Text(Text(a, "*", b), "+", c)
    ensures Print(Binary(Binary(Atom(a), Add, Atom(b)), Mul, Atom(c))) == Text("(" + Text(a, "+", b) + ")", "*", c)
    ensures Print(Binary(Binary(Atom(a), Sub, Atom(b)), Sub, Atom(c))) == Text(Text(a, "-", b), "-", c)
    ensures Print(Binary(Atom(a), Sub, Binary(Atom(b), Sub, Atom(c)))) == Text(a, "-", "(" + Text(b, "-", c) + ")")
  {
    forall t ensures Print(Atom(t)) == t {}
    forall left, op, right ensures Print(Binary(left, op, right)) ==
      Text(Parens(Print(left), ParenLeft(left, op)), Symbol(op), Parens(Print(right), ParenRight(right, op))) {}
    hide Print, Text;
    assert LevelOf(Binary(Atom(a), Sub, Atom(b))) == 3 && Level(Sub) == 3;
    assert !ParenLeft(Binary(Atom(a), Sub, Atom(b)), Sub) && !ParenRight(Atom(c), Sub);
  }

  /** A value read from an atom. */
  predicate Reads(x: Context<int>, text: string, n: int) { x.atom(text) == Ok(Number(n)) }

  /** The six comparisons, as they are written. */
  lemma OperatorsCompare(x: Context<int>, a: string, b: string, m: int, n: int)
    requires OverIntegers(x) && IsAtom(a) && IsAtom(b) && Reads(x, a, m) && Reads(x, b, n)
    ensures Evaluate(x, Text(a, "==", b)) == Ok(Boolean(m == n)) && Evaluate(x, Text(a, "!=", b)) == Ok(Boolean(m != n))
    ensures Evaluate(x, Text(a, "<", b)) == Ok(Boolean(m < n)) && Evaluate(x, Text(a, "<=", b)) == Ok(Boolean(m <= n))
    ensures Evaluate(x, Text(a, ">", b)) == Ok(Boolean(m > n)) && Evaluate(x, Text(a, ">=", b)) == Ok(Boolean(m >= n))
  {
    hide Evaluate, Text, IsAtom, OverIntegers, Reads;
    OneOperator(x, a, Eq, b, m, n);
    OneOperator(x, a, Ne, b, m, n);
    OneOperator(x, a, Lt, b, m, n);
    OneOperator(x, a, Le, b, m, n);
    OneOperator(x, a, Gt, b, m, n);
    OneOperator(x, a, Ge, b, m, n);
  }

  lemma OneOperator(x: Context<int>, a: string, op: Operator, b: string, m: int, n: int)
    requires OverIntegers(x) && IsAtom(a) && IsAtom(b) && Reads(x, a, m) && Reads(x, b, n)
    requires op in {Eq, Ne, Lt, Le, Gt, Ge}
    ensures Evaluate(x, Text(a, Symbol(op), b)) == Ok(Boolean(Compares(m, op, n)))
  {
    var e := Binary(Atom(a), op, Atom(b));
    assert Proper(e) by { assert Proper(Atom(a)) && Proper(Atom(b)); }
    assert Print(e) == Text(a, Symbol(op), b);
    assert TruthOf(x, e) == Ok(Compares(m, op, n));
    hide Evaluate, IsAtom, Symbol, Print, OverIntegers, Proper, TruthOf;
    EvaluatorCalculates(x, e);
  }

  /** Precedence and grouping, in text. */
  lemma OperatorsGroup(x: Context<int>, a: string, b: string, c: string, i: int, j: int, k: int)
    requires OverIntegers(x) && IsAtom(a) && IsAtom(b) && IsAtom(c)
    requires Reads(x, a, i) && Reads(x, b, j) && Reads(x, c, k)
    ensures Evaluate(x, Text(a, "+", Text(b, "*", c))) == Ok(Number(i + j * k))
    ensures Evaluate(x, Text("(" + Text(a, "+", b) + ")", "*", c)) == Ok(Number((i + j) * k))
    ensures Evaluate(x, Text(Text(a, "-", b), "-", c)) == Ok(Number(i - j - k))
    ensures Evaluate(x, Text(a, "-", "(" + Text(b, "-", c) + ")")) == Ok(Number(i - (j - k)))
  {
    TextsOfTrees(a, b, c);
    ThreeAtoms(x, Atom(a), Atom(b), Atom(c), i, j, k);
    hide Evaluate, IsAtom, OverIntegers, Print, Text, Proper, IsSum, IntegerOf, Reads;
    EvaluatorCalculates(x, Binary(Atom(a), Add, Binary(Atom(b), Mul, Atom(c))));
    EvaluatorCalculates(x, Binary(Binary(Atom(a), Add, Atom(b)), Mul, Atom(c)));
    EvaluatorCalculates(x, Binary(Binary(Atom(a), Sub, Atom(b)), Sub, Atom(c)));
    EvaluatorCalculates(x, Binary(Atom(a), Sub, Binary(Atom(b), Sub, Atom(c))));
  }

  predicate IsValue(x: Context<int>, e: Expression, n: int) { IsSum(x, e) && IntegerOf(x, e) == Ok(n) }

  lemma JoinValues(x: Context<int>, left: Expression, op: Operator, right: Expression, m: int, n: int)
    requires IsValue(x, left, m) && IsValue(x, right, n) && (op == Add || op == Sub || op == Mul)
    requires Proper(left) && Proper(right)
    ensures Proper(Binary(left, op, right))
    ensures IsValue(x, Binary(left, op, right), if op == Add then m + n else if op == Sub then m - n else m * n)
  {}

  lemma ThreeAtoms(x: Context<int>, a: Expression, b: Expression, c: Expression, i: int, j: int, k: int)
    requires a.Atom? && b.Atom? && c.Atom? && IsAtom(a.text) && IsAtom(b.text) && IsAtom(c.text)
    requires Reads(x, a.text, i) && Reads(x, b.text, j) && Reads(x, c.text, k)
    ensures var e := Binary(a, Add, Binary(b, Mul, c)); Proper(e) && IsValue(x, e, i + j * k)
    ensures var e := Binary(Binary(a, Add, b), Mul, c); Proper(e) && IsValue(x, e, (i + j) * k)
    ensures var e := Binary(Binary(a, Sub, b), Sub, c); Proper(e) && IsValue(x, e, i - j - k)
    ensures var e := Binary(a, Sub, Binary(b, Sub, c)); Proper(e) && IsValue(x, e, i - (j - k))
  {
    assert IsValue(x, a, i) && IsValue(x, b, j) && IsValue(x, c, k) && Proper(a) && Proper(b) && Proper(c);
    hide IsValue, Proper, IsAtom, Reads;
    JoinValues(x, b, Mul, c, j, k);
    JoinValues(x, a, Add, Binary(b, Mul, c), i, j * k);
    JoinValues(x, a, Add, b, i, j);
    JoinValues(x, Binary(a, Add, b), Mul, c, i + j, k);
    JoinValues(x, a, Sub, b, i, j);
    JoinValues(x, Binary(a, Sub, b), Sub, c, i - j, k);
    JoinValues(x, b, Sub, c, j, k);
    JoinValues(x, a, Sub, Binary(b, Sub, c), i, j - k);
  }
}
