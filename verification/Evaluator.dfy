/**
 The debugger's expression evaluator: it re-reads its text at every level,
 splitting at the last operator of the loosest level outside quotes and brackets.
 */
module Evaluator {
  import opened Prelude
  import opened Text
  import opened Literals

  // ----- values -----

  datatype Value<N> = Number(n: N) | Boolean(b: bool) | Words(text: string)

  datatype Operator = Or | And | Eq | Ne | Le | Ge | Lt | Gt | Add | Sub | Mul | Div | Rem

  type Outcome<N> = Result<Value<N>, string>

  /** The machine the expression is about, and the arithmetic of its numbers. */
  datatype Context<!N> = Context(
    atom: string -> Result<Value<N>, string>, changed: (string, N) -> bool,
    truthy: N -> bool, ofBoolean: bool -> N, equal: (N, N) -> bool, less: (N, N) -> bool, atMost: (N, N) -> bool,
    compute: (Operator, N, N) -> N, negate: N -> N, absolute: N -> N, isNan: N -> bool, isFinite: N -> bool)

  function Truthy<N>(x: Context<N>, v: Value<N>): Result<bool, string> {
    match v
    case Boolean(b) => Ok(b)
    case Number(n) => Ok(x.truthy(n))
    case Words(_) => Err("text is not a boolean value")
  }

  function NumberOf<N>(x: Context<N>, v: Value<N>): Result<N, string> {
    match v
    case Number(n) => Ok(n)
    case Boolean(b) => Ok(x.ofBoolean(b))
    case Words(_) => Err("text is not a numeric value")
  }

  function Both<N>(x: Context<N>, left: Value<N>, right: Value<N>): Result<(N, N), string> {
    match NumberOf(x, left)
    case Err(e) => Err(e)
    case Ok(a) => match NumberOf(x, right) case Err(e) => Err(e) case Ok(b) => Ok((a, b))
  }

  function Equal<N>(x: Context<N>, left: Value<N>, right: Value<N>): Result<bool, string> {
    if left.Words? && right.Words? then Ok(left.text == right.text)
    else if left.Boolean? && right.Boolean? then Ok(left.b == right.b)
    else match Both(x, left, right) case Err(e) => Err(e) case Ok((a, b)) => Ok(x.equal(a, b))
  }

  /** The operator applied to two values; `&&` and `||` get here only when the left value did not decide. */
  function Apply<N>(x: Context<N>, left: Value<N>, op: Operator, right: Value<N>): Outcome<N> {
    match op
    case And => (match Truthy(x, right) case Err(e) => Err(e) case Ok(b) => Ok(Boolean(b)))
    case Or => (match Truthy(x, right) case Err(e) => Err(e) case Ok(b) => Ok(Boolean(b)))
    case Eq => (match Equal(x, left, right) case Err(e) => Err(e) case Ok(b) => Ok(Boolean(b)))
    case Ne => (match Equal(x, left, right) case Err(e) => Err(e) case Ok(b) => Ok(Boolean(!b)))
    case _ =>
      match Both(x, left, right)
      case Err(e) => Err(e)
      case Ok((a, b)) =>
        match op
        case Lt => Ok(Boolean(x.less(a, b)))
        case Le => Ok(Boolean(x.atMost(a, b)))
        case Gt => Ok(Boolean(x.less(b, a)))
        case Ge => Ok(Boolean(x.atMost(b, a)))
        case _ => Ok(Number(x.compute(op, a, b)))
  }

  /** A left value that decides `&&` or `||` alone. */
  function ShortCircuit<N>(x: Context<N>, op: Operator, left: Value<N>): Result<Option<bool>, string> {
    if op != And && op != Or then Ok(None)
    else match Truthy(x, left)
      case Err(e) => Err(e)
      case Ok(b) => Ok(if op == And && !b then Some(false) else if op == Or && b then Some(true) else None)
  }

  function ApplyUnary<N>(x: Context<N>, sign: char, v: Value<N>): Outcome<N> {
    if sign == '!' then (match Truthy(x, v) case Err(e) => Err(e) case Ok(b) => Ok(Boolean(!b)))
    else match NumberOf(x, v)
      case Err(e) => Err(e)
      case Ok(n) => Ok(Number(if sign == '-' then x.negate(n) else n))
  }

  function ApplyFunction<N>(x: Context<N>, name: string, argument: string, v: Value<N>,
                          otherwise: Outcome<N>): Outcome<N> {
    if !IsFunction(name) then otherwise
    else match NumberOf(x, v)
      case Err(e) => Err(e)
      case Ok(n) =>
        if name == "abs" then Ok(Number(x.absolute(n)))
        else if name == "isnan" then Ok(Boolean(x.isNan(n)))
        else if name == "isfinite" then Ok(Boolean(x.isFinite(n)))
        else Ok(Boolean(x.changed(argument, n)))
  }

  predicate IsFunction(name: string) { name == "abs" || name == "isnan" || name == "isfinite" || name == "changed" }

  // ----- operators in text -----

  function Symbol(op: Operator): string {
    match op
    case Or => "||" case And => "&&" case Eq => "==" case Ne => "!=" case Le => "<=" case Ge => ">="
    case Lt => "<" case Gt => ">" case Add => "+" case Sub => "-" case Mul => "*" case Div => "/" case Rem => "%"
  }

  /** Precedence, loosest first. */
  function Level(op: Operator): nat {
    match op
    case Or => 0
    case And => 1
    case Add => 3 case Sub => 3
    case Mul => 4 case Div => 4 case Rem => 4
    case _ => 2
  }

  const LEVELS: nat := 5

  /** The operator of level `k` that `t` starts with; of two that fit, the longer. */
  function OperatorAt(t: string, k: nat): Option<Operator> {
    if k == 0 then (if StartsWith(t, "||") then Some(Or) else None)
    else if k == 1 then (if StartsWith(t, "&&") then Some(And) else None)
    else if k == 2 then
      (if StartsWith(t, "==") then Some(Eq) else if StartsWith(t, "!=") then Some(Ne)
      else if StartsWith(t, "<=") then Some(Le) else if StartsWith(t, ">=") then Some(Ge)
      else if StartsWith(t, "<") then Some(Lt) else if StartsWith(t, ">") then Some(Gt) else None)
    else if k == 3 then (if StartsWith(t, "+") then Some(Add) else if StartsWith(t, "-") then Some(Sub) else None)
    else if StartsWith(t, "*") then Some(Mul)
      else if StartsWith(t, "/") then Some(Div) else if StartsWith(t, "%") then Some(Rem)
    else None
  }

  /** Bracket depth and quoting after `c`, which follows `prev`. */
  function Depth(c: char, quoted: bool, depth: int): int {
    if quoted then depth
      else if c == '(' || c == '[' then depth + 1 else if c == ')' || c == ']' then depth - 1 else depth
  }

  function Quoted(prev: char, c: char, quoted: bool): bool { if c == '"' && prev != '\\' then !quoted else quoted }

  /** An operator of level `k` splits here; a sign at the very start does not. */
  function SplitsHere(t: string, k: nat, first: bool, depth: int, quoted: bool): Option<Operator> {
    if depth != 0 || quoted || (k == 3 && first) then None else OperatorAt(t, k)
  }

  /** The last split in the rest `t` of a text, `position` characters in. */
  function LastSplit(t: string, k: nat, first: bool, prev: char, depth: int, quoted: bool,
                     position: nat): (r: Option<(nat, Operator)>)
    ensures r.Some? ==> position <= r.value.0 && r.value.0 + |Symbol(r.value.1)| <= position + |t|
    decreases |t|
  {
    if t == [] then None
    else
      var q := Quoted(prev, t[0], quoted);
      var d := Depth(t[0], q, depth);
      match SplitsHere(t, k, first, d, q)
      case None => LastSplit(t[1..], k, false, t[0], d, q, position + 1)
      case Some(op) =>
        var n := |Symbol(op)|;
        var later := LastSplit(t[n..], k, false, t[n - 1], d, q, position + n);
        if later.Some? then later else Some((position, op))
  }

  function SplitOperator(s: string, k: nat): (r: Option<(nat, Operator)>)
    ensures r.Some? ==> r.value.0 + |Symbol(r.value.1)| <= |s|
  {
    LastSplit(s, k, true, ' ', 0, false, 0)
  }

  function Before(s: string, index: nat): char
    requires index <= |s|
  {
    if index == 0 then ' ' else s[index - 1]
  }

  function LaterSplit(s: string, k: nat, index: nat, depth: int, quoted: bool): Option<(nat, Operator)>
    requires index <= |s|
  {
    LastSplit(s[index..], k, index == 0, Before(s, index), depth, quoted, index)
  }

  lemma LaterSplitStep(s: string, k: nat, index: nat, depth: int, quoted: bool)
    requires index < |s|
    ensures var q := Quoted(Before(s, index), s[index], quoted);
      var d := Depth(s[index], q, depth);
      match SplitsHere(s[index..], k, index == 0, d, q)
      case None => LaterSplit(s, k, index, depth, quoted) == LaterSplit(s, k, index + 1, d, q)
      case Some(op) =>
        (index + |Symbol(op)| <= |s|
        && var later := LaterSplit(s, k, index + |Symbol(op)|, d, q);
          LaterSplit(s, k, index, depth, quoted) == if later.Some? then later else Some((index, op)))
  {
    var t := s[index..];
    var q := Quoted(Before(s, index), s[index], quoted);
    var d := Depth(s[index], q, depth);
    match SplitsHere(t, k, index == 0, d, q)
    case None => assert t[1..] == s[index + 1..];
    case Some(op) =>
      var n := |Symbol(op)|;
      assert t[n..] == s[index + n..] && t[n - 1] == s[index + n - 1];
  }

  method FindSplit(s: string, k: nat) returns (r: Option<(nat, Operator)>)
    ensures r == SplitOperator(s, k)
  {
    hide LastSplit, SplitsHere;
    r := None;
    var depth, quoted, index := 0, false, 0;
    assert s[0..] == s && LaterSplit(s, k, 0, 0, false) == SplitOperator(s, k);
    hide LaterSplit;
    while index < |s|
      invariant index <= |s|
      invariant var later := LaterSplit(s, k, index, depth, quoted);
          SplitOperator(s, k) == if later.Some? then later else r
    {
      LaterSplitStep(s, k, index, depth, quoted);
      var c := s[index];
      if c == '"' && (index == 0 || s[index - 1] != '\\') {
        quoted := !quoted;
      } else if (c == '(' || c == '[') && !quoted {
        depth := depth + 1;
      } else if (c == ')' || c == ']') && !quoted {
        depth := depth - 1;
      }
      match SplitsHere(s[index..], k, index == 0, depth, quoted) {
        case None => index := index + 1;
        case Some(found) =>
          r := Some((index, found));
          index := index + |Symbol(found)|;
      }
    }
    NothingLater(s, k, depth, quoted);
  }

  lemma NothingLater(s: string, k: nat, depth: int, quoted: bool)
    ensures LaterSplit(s, k, |s|, depth, quoted) == None
  {}

  // ----- outer parentheses and calls -----

  /** Where the parenthesis depth first returns to zero; quotes and brackets are not looked at. */
  function FirstClose(s: string, depth: nat, position: nat): (r: Option<nat>)
    ensures r.Some? ==> position <= r.value < position + |s|
  {
    if s == [] then None
    else if s[0] == '(' then FirstClose(s[1..], depth + 1, position + 1)
    else if s[0] == ')' then (if depth == 1 then Some(position) else FirstClose(s[1..], if depth == 0 then 0
      else depth - 1, position + 1))
    else FirstClose(s[1..], depth, position + 1)
  }

  predicate Wrapped(s: string) {
    |s| >= 2 && s[0] == '(' && s[|s| - 1] == ')' && FirstClose(s, 0, 0) == Some(|s| - 1)
  }

  /** `trim_outer`: strip parentheses around the whole, and the space inside them, while there are any. */
  function TrimOuter(s: string): (r: string)
    ensures |r| <= |s|
    decreases |s|
  {
    if Wrapped(s) then
      TrimShrinks(s[1..|s| - 1]);
      TrimOuter(Trim(s[1..|s| - 1]))
    else s
  }

  lemma {:induction false} TrimStartShrinks(s: string)
    ensures |TrimStart(s)| <= |s|
  {
    if s != [] && IsWhitespace(s[0]) { TrimStartShrinks(s[1..]); }
  }

  lemma {:induction false} TrimEndShrinks(s: string)
    ensures |TrimEnd(s)| <= |s|
  {
    if s != [] && IsWhitespace(s[|s| - 1]) { TrimEndShrinks(s[..|s| - 1]); }
  }

  lemma TrimShrinks(s: string)
    ensures |Trim(s)| <= |s|
  {
    TrimStartShrinks(s);
    TrimEndShrinks(TrimStart(s));
  }

  predicate IsNameChar(c: char) { IsLetter(c) || '0' <= c <= '9' }

  /** The name and the argument text of a call. */
  function FunctionCall(s: string): (r: Option<(string, string)>)
    ensures r.Some? ==> |r.value.1| < |s|
  {
    var open := IndexOf(s, '(');
    IndexInRange(s, '(');
    if open >= |s| || s[|s| - 1] != ')' then None
    else
      var name := Trim(s[..open]);
      if name == [] || exists i :: 0 <= i < |name| && !IsNameChar(name[i]) then None
      else if open + 1 <= |s| - 1 then Some((name, s[open + 1..|s| - 1])) else None
  }

  lemma {:induction false} IndexInRange(s: string, c: char)
    ensures IndexOf(s, c) <= |s|
  {
    if s != [] && s[0] != c { IndexInRange(s[1..], c); }
  }

  // ----- evaluation -----

  /** The loosest level at which the text splits, and the split. */
  function Split(s: string, k: nat): (r: Option<(nat, Operator)>)
    ensures r.Some? ==> r.value.0 + |Symbol(r.value.1)| <= |s|
    decreases LEVELS - k
  {
    if k >= LEVELS then None
    else
      var here := SplitOperator(s, k);
      if here.Some? then here else Split(s, k + 1)
  }

  function EvaluateInner<N>(x: Context<N>, s: string): Outcome<N>
    decreases |s|
  {
    match Split(s, 0)
    case Some((at, op)) =>
      var left, right := Trim(s[..at]), Trim(s[at + |Symbol(op)|..]);
      TrimShrinks(s[..at]);
      TrimShrinks(s[at + |Symbol(op)|..]);
      if left == [] || right == [] then Err("operator requires two operands")
      else
        (match EvaluateInner(x, TrimOuter(left))
         case Err(e) => Err(e)
         case Ok(a) =>
           match ShortCircuit(x, op, a)
           case Err(e) => Err(e)
           case Ok(Some(b)) => Ok(Boolean(b))
           case Ok(None) =>
             match EvaluateInner(x, TrimOuter(right))
             case Err(e) => Err(e)
             case Ok(b) => Apply(x, a, op, b))
    case None =>
      if s != [] && (s[0] == '!' || s[0] == '+' || s[0] == '-') then
        (match EvaluateInner(x, s[1..]) case Err(e) => Err(e) case Ok(v) => ApplyUnary(x, s[0], v))
      else match FunctionCall(s)
        case None => x.atom(s)
        case Some((name, argument)) =>
          TrimShrinks(argument);
          match EvaluateInner(x, TrimOuter(Trim(argument)))
          case Err(e) => Err(e)
          case Ok(v) => ApplyFunction(x, name, Trim(argument), v, x.atom(s))
  }

  // ----- delimiters -----

  datatype Delimiters = Delimiters(open: seq<char>, quoted: bool, escaped: bool)

  /** `validate_delimiters` on one character; `None` is an unbalanced closing bracket. */
  function Delimit(d: Delimiters, c: char): Option<Delimiters> {
    if d.quoted then
      Some(if d.escaped then d.(escaped := false)
        else if c == '\\' then d.(escaped := true) else if c == '"' then d.(quoted := false) else d)
    else if c == '"' then Some(d.(quoted := true))
    else if c == '(' || c == '[' then Some(d.(open := d.open + [c]))
    else if c == ')' || c == ']' then
      (if d.open != [] &&
        d.open[|d.open| - 1] == (if c == ')' then '(' else '[') then Some(d.(open := d.open[..|d.open| - 1])) else None)
    else Some(d)
  }

  function DelimitAll(d: Delimiters, s: string): Option<Delimiters>
    decreases |s|
  {
    if s == [] then Some(d)
    else match Delimit(d, s[0]) case None => None case Some(next) => DelimitAll(next, s[1..])
  }

  const NoDelimiters := Delimiters([], false, false)

  predicate DelimitersMatch(s: string) {
    match DelimitAll(NoDelimiters, s) case None => false case Some(d) => !d.quoted && d.open == []
  }

  method ValidateDelimiters(s: string) returns (ok: bool)
    ensures ok == DelimitersMatch(s)
  {
    var open: seq<char> := [];
    var quoted, escaped := false, false;
    for i := 0 to |s|
      invariant DelimitAll(NoDelimiters, s) == DelimitAll(Delimiters(open, quoted, escaped), s[i..])
    {
      var c := s[i];
      assert s[i..][1..] == s[i + 1..];
      if quoted {
        if escaped { escaped := false; } else if c == '\\' { escaped := true; } else if c == '"' { quoted := false; }
      } else if c == '"' {
        quoted := true;
      } else if c == '(' || c == '[' {
        open := open + [c];
      } else if c == ')' || c == ']' {
        if open == [] || open[|open| - 1] != (if c == ')' then '(' else '[') { return false; }
        open := open[..|open| - 1];
      }
    }
    assert s[|s|..] == [];
    ok := !quoted && open == [];
  }

  function Evaluate<N>(x: Context<N>, expression: string): Outcome<N> {
    var s := Trim(expression);
    if s == [] then Err("expression is empty")
    else if !DelimitersMatch(s) then Err("delimiters do not match")
    else EvaluateInner(x, TrimOuter(s))
  }
}
