/**
 Declared names: the symbol table (first declaration wins), cyclic chains,
 define resolution, and the short names given to private aliases.
 */
module Symbols {
  import opened Prelude
  import opened Text
  import opened Literals

  datatype SymbolKind = LabelName | DefineName | AliasName

  datatype Symbol = Symbol(kind: SymbolKind, value: Option<string>, line: nat)

  type Table = map<string, Symbol>

  /** The name and symbol a line declares, valid or not. */
  function Declared(k: LineKind, line: nat): Option<(string, Symbol)> {
    match k
    case Empty => None
    case Label(name) => Some((name, Symbol(LabelName, None, line)))
    case Instruction(m, operands) =>
      if (m == "define" || m == "alias") && operands != [] then
        Some((operands[0], Symbol(if m == "define" then DefineName else AliasName,
                                  if |operands| > 1 then Some(operands[1]) else None, line)))
      else None
  }

  /** `collect_declarations`: identifiers only, and the first declaration of a name stays. */
  function Collect(p: seq<LineKind>): Table {
    if p == [] then map[]
    else
      var table := Collect(p[..|p| - 1]);
      match Declared(p[|p| - 1], |p| - 1)
      case None => table
      case Some((name, symbol)) => if IsIdentifier(name) && name !in table then table[name := symbol] else table
  }

  method CollectDeclarations(p: seq<LineKind>) returns (table: Table, invalid: bool)
    ensures table == Collect(p)
    ensures invalid <==> !NamesAreIdentifiers(p)
  {
    table, invalid := map[], false;
    for i := 0 to |p|
      invariant table == Collect(p[..i])
      invariant invalid <==> !NamesAreIdentifiers(p[..i])
    {
      assert p[..i + 1][..i] == p[..i];
      match Declared(p[i], i) {
        case None =>
        case Some((name, symbol)) =>
          if !IsIdentifier(name) { invalid := true; }
          else if name !in table { table := table[name := symbol]; }
      }
    }
    assert p[..|p|] == p;
  }

  /** Every declared name is an identifier; other names are reported as errors. */
  predicate NamesAreIdentifiers(p: seq<LineKind>) {
    forall i :: 0 <= i < |p| && Declared(p[i], i).Some? ==> IsIdentifier(Declared(p[i], i).value.0)
  }

  lemma {:induction false} CollectEntries(p: seq<LineKind>, name: string)
    ensures name in Collect(p) ==>
      (IsIdentifier(name) && Collect(p)[name].line < |p|
       && Declared(p[Collect(p)[name].line], Collect(p)[name].line) == Some((name, Collect(p)[name])))
    ensures name in Collect(p) ==>
      forall i :: 0 <= i < Collect(p)[name].line && Declared(p[i], i).Some? ==> Declared(p[i], i).value.0 != name
    ensures name !in Collect(p) ==>
      forall i :: 0 <= i < |p| && Declared(p[i], i).Some? && Declared(p[i], i).value.0 == name ==> !IsIdentifier(name)
  {
    if p != [] { CollectEntries(p[..|p| - 1], name); }
  }

  // ----- cycles -----

  /** `validate_symbol_cycles` from one symbol: does following values revisit a name? */
  predicate FindsCycle(table: Table, current: string, seen: set<string>)
    requires current in table
    decreases |table.Keys - seen|
  {
    match table[current].value
    case None => false
    case Some(next) =>
      if next !in table then false
      else if current in seen then true
      else
        assert current in table.Keys - seen && current !in table.Keys - (seen + {current});
        Shrinks(table.Keys - seen, table.Keys - (seen + {current}), current);
        FindsCycle(table, next, seen + {current})
  }

  lemma Shrinks<T>(a: set<T>, b: set<T>, x: T)
    requires b <= a && x in a && x !in b
    ensures |b| < |a|
  {
    assert b <= a - {x};
    SubsetSize(b, a - {x});
  }

  lemma SubsetSize<T>(a: set<T>, b: set<T>)
    requires a <= b
    ensures |a| <= |b|
  {
    assert a + (b - a) == b;
  }

  predicate Acyclic(table: Table) { forall name :: name in table ==> !FindsCycle(table, name, {}) }

  // ----- define resolution -----

  type Values = map<string, string>

  function RawDefines(table: Table): Values {
    map name | name in table && table[name].kind == DefineName && table[name].value.Some? :: table[name].value.value
  }

  function ResolveFrom(defines: Values, current: string, visited: set<string>): Option<string>
    decreases |defines.Keys - visited|
  {
    if current in visited || current !in defines then None
    else if defines[current] in defines then
      Shrinks(defines.Keys - visited, defines.Keys - (visited + {current}), current);
      ResolveFrom(defines, defines[current], visited + {current})
    else Some(defines[current])
  }

  function ResolveDefine(defines: Values, name: string): Option<string> { ResolveFrom(defines, name, {}) }

  method ResolveDefineLoop(defines: Values, name: string) returns (r: Option<string>)
    ensures r == ResolveDefine(defines, name)
  {
    var current := name;
    var visited: set<string> := {};
    while true
      invariant ResolveFrom(defines, current, visited) == ResolveDefine(defines, name)
      decreases |defines.Keys - visited|
    {
      if current in visited { return None; }
      if current !in defines { return None; }
      var value := defines[current];
      if value !in defines { return Some(value); }
      Shrinks(defines.Keys - visited, defines.Keys - (visited + {current}), current);
      visited := visited + {current};
      current := value;
    }
  }

  /** The `k`-th name of the chain that starts at `name`; it stays put once it leaves the defines. */
  function ChainAt(defines: Values, name: string, k: nat): string
    decreases k
  {
    if k == 0 then name
    else
      var previous := ChainAt(defines, name, k - 1);
      if previous in defines then defines[previous] else previous
  }

  ghost predicate Cyclic(defines: Values, name: string) {
    forall k: nat :: ChainAt(defines, name, k) in defines
  }

  ghost predicate ChainBefore(defines: Values, name: string, i: nat, visited: set<string>) {
    && (forall j: nat :: j < i ==> ChainAt(defines, name, j) in defines && ChainAt(defines, name, j) in visited)
    && (forall v :: v in visited ==> exists j: nat :: j < i && ChainAt(defines, name, j) == v)
  }

  /** Once the chain repeats it never leaves. */
  lemma {:induction false} RepeatsForever(defines: Values, name: string, i: nat, j: nat, k: nat)
    requires j < i && ChainAt(defines, name, i) == ChainAt(defines, name, j)
    requires forall m: nat :: m < i ==> ChainAt(defines, name, m) in defines
    ensures exists m: nat :: m < i && ChainAt(defines, name, k) == ChainAt(defines, name, m)
    decreases k
  {
    if k >= i {
      RepeatsForever(defines, name, i, j, k - 1);
      var m: nat :| m < i && ChainAt(defines, name, k - 1) == ChainAt(defines, name, m);
      assert ChainAt(defines, name, m + 1) == defines[ChainAt(defines, name, m)];
      assert ChainAt(defines, name, k) == ChainAt(defines, name, m + 1);
    }
  }

  lemma RepeatIsCycle(defines: Values, name: string, i: nat, j: nat)
    requires j < i && ChainAt(defines, name, i) == ChainAt(defines, name, j)
    requires forall m: nat :: m < i ==> ChainAt(defines, name, m) in defines
    ensures Cyclic(defines, name)
  {
    forall k: nat ensures ChainAt(defines, name, k) in defines { RepeatsForever(defines, name, i, j, k); }
  }

  lemma ChainGrows(defines: Values, name: string, i: nat, visited: set<string>)
    requires ChainBefore(defines, name, i, visited) && ChainAt(defines, name, i) in defines
    ensures ChainBefore(defines, name, i + 1, visited + {ChainAt(defines, name, i)})
  {
    hide ChainAt;
  }

  lemma VisitedIsCycle(defines: Values, name: string, i: nat, visited: set<string>)
    requires ChainBefore(defines, name, i, visited) && ChainAt(defines, name, i) in defines
    requires ChainAt(defines, name, i) in visited
    ensures Cyclic(defines, name)
  {
    hide ChainAt;
    var j: nat :| j < i && ChainAt(defines, name, j) == ChainAt(defines, name, i);
    RepeatIsCycle(defines, name, i, j);
  }

  ghost predicate IsChainEnd(defines: Values, name: string, v: string) {
    v !in defines && exists k: nat :: ChainAt(defines, name, k) == v
  }

  lemma ChainSteps(defines: Values, name: string, i: nat)
    requires ChainAt(defines, name, i) in defines
    ensures var v := defines[ChainAt(defines, name, i)];
      ChainAt(defines, name, i + 1) == v && (v !in defines ==> IsChainEnd(defines, name, v))
  {
    assert ChainAt(defines, name, i + 1) == defines[ChainAt(defines, name, i)];
  }

  lemma {:induction false} ResolveFromIsChainEnd(defines: Values, name: string, i: nat, current: string,
                          visited: set<string>)
    requires ChainBefore(defines, name, i, visited) && current == ChainAt(defines, name, i) && current in defines
    ensures match ResolveFrom(defines, current, visited)
      case None => Cyclic(defines, name)
      case Some(v) => IsChainEnd(defines, name, v)
    decreases |defines.Keys - visited|
  {
    hide ChainAt, Cyclic, IsChainEnd, ChainBefore;
    ChainSteps(defines, name, i);
    if current in visited {
      VisitedIsCycle(defines, name, i, visited);
    } else if defines[current] in defines {
      Shrinks(defines.Keys - visited, defines.Keys - (visited + {current}), current);
      ChainGrows(defines, name, i, visited);
      ResolveFromIsChainEnd(defines, name, i + 1, defines[current], visited + {current});
    }
  }

  /** `resolve_define` fails exactly on a cyclic chain; otherwise it gives the end of the chain, which is no define. */
  lemma ResolveDefineIsTotal(defines: Values, name: string)
    requires name in defines
    ensures ResolveDefine(defines, name).None? <==> Cyclic(defines, name)
    ensures ResolveDefine(defines, name).Some? ==>
      IsChainEnd(defines, name, ResolveDefine(defines, name).value)
  {
    assert ChainAt(defines, name, 0) == name;
    ResolveFromIsChainEnd(defines, name, 0, name, {});
  }

  /** The value of every symbol that has one, whatever its kind. */
  function AllValues(table: Table): Values {
    map name | name in table && table[name].value.Some? :: table[name].value.value
  }

  lemma {:induction false} FindsCycleFrom(table: Table, name: string, i: nat, current: string, seen: set<string>)
    requires ChainBefore(AllValues(table), name, i, seen) && current == ChainAt(AllValues(table), name, i)
    requires current in table
    ensures FindsCycle(table, current, seen) <==> Cyclic(AllValues(table), name)
    decreases |table.Keys - seen|
  {
    hide ChainBefore, IsChainEnd;
    var values := AllValues(table);
    if current in values {
      ChainSteps(values, name, i);
      if values[current] in table {
        if current in seen {
          VisitedIsCycle(values, name, i, seen);
        } else {
          Shrinks(table.Keys - seen, table.Keys - (seen + {current}), current);
          ChainGrows(values, name, i, seen);
          FindsCycleFrom(table, name, i + 1, values[current], seen + {current});
        }
      }
    }
  }

  /** The cycle diagnostic reports a symbol exactly when following values from it never ends. */
  lemma CyclesAreFound(table: Table, name: string)
    requires name in table
    ensures FindsCycle(table, name, {}) <==> Cyclic(AllValues(table), name)
  {
    assert ChainAt(AllValues(table), name, 0) == name;
    FindsCycleFrom(table, name, 0, name, {});
  }

  /** A chain of defines that never ends is one of values that never ends. */
  lemma {:induction false} DefineChainIsChain(table: Table, name: string, k: nat)
    requires Cyclic(RawDefines(table), name)
    ensures ChainAt(AllValues(table), name, k) == ChainAt(RawDefines(table), name, k)
  {
    if k > 0 {
      DefineChainIsChain(table, name, k - 1);
      assert ChainAt(RawDefines(table), name, k - 1) in RawDefines(table);
    }
  }

  /** Without cycle errors every define resolves, in one pass, to something that is no define. */
  lemma AcyclicDefinesResolve(table: Table, name: string)
    requires Acyclic(table) && name in RawDefines(table)
    ensures ResolveDefine(RawDefines(table), name).Some?
    ensures ResolveDefine(RawDefines(table), name).value !in RawDefines(table)
  {
    var defines := RawDefines(table);
    ResolveDefineIsTotal(defines, name);
    if Cyclic(defines, name) {
      forall k: nat ensures ChainAt(AllValues(table), name, k) in AllValues(table) {
        DefineChainIsChain(table, name, k);
        assert ChainAt(defines, name, k) in defines;
      }
      CyclesAreFound(table, name);
    }
  }

  function Defines(table: Table): Values {
    var raw := RawDefines(table);
    map name | name in raw && ResolveDefine(raw, name).Some? :: ResolveDefine(raw, name).value
  }

  // ----- private aliases -----

  predicate Less(a: string, b: string) {
    b != [] && (a == [] || a[0] < b[0] || (a[0] == b[0] && Less(a[1..], b[1..])))
  }

  lemma {:induction false} LessTransitive(a: string, b: string, c: string)
    requires Less(a, b) && Less(b, c)
    ensures Less(a, c)
  {
    if a != [] && a[0] == b[0] == c[0] { LessTransitive(a[1..], b[1..], c[1..]); }
  }

  lemma {:induction false} LessTotal(a: string, b: string)
    ensures a == b || Less(a, b) || Less(b, a)
  {
    if a != [] && b != [] && a[0] == b[0] {
      LessTotal(a[1..], b[1..]);
      assert a == [a[0]] + a[1..] && b == [b[0]] + b[1..];
    }
  }

  /** The texts agree up to `k`, where the first ends or has the smaller character. */
  predicate LessAt(a: string, b: string, k: nat) {
    k <= |a| && k < |b| && a[..k] == b[..k] && (k == |a| || a[k] < b[k])
  }

  lemma LessAtShifts(a: string, b: string, k: nat)
    requires a != [] && b != [] && a[0] == b[0]
    ensures LessAt(a, b, k + 1) <==> LessAt(a[1..], b[1..], k)
  {
    if k < |a| && k + 1 < |b| {
      assert a[..k + 1] == [a[0]] + a[1..][..k] && b[..k + 1] == [b[0]] + b[1..][..k];
      assert a[1..][..k] == a[..k + 1][1..] && b[1..][..k] == b[..k + 1][1..];
    }
  }

  lemma LessAtHeads(a: string, b: string, k: nat)
    requires a != [] && b != []
    ensures LessAt(a, b, k) && k > 0 ==> a[0] == b[0]
  {
    if LessAt(a, b, k) && k > 0 { assert a[..k][0] == b[..k][0]; }
  }

  /** The order is that of the alphabet. */
  lemma {:induction false} LessIsLexicographic(a: string, b: string)
    ensures Less(a, b) <==> exists k: nat :: LessAt(a, b, k)
  {
    if b != [] && a != [] {
      forall k: nat ensures LessAt(a, b, k) && k > 0 ==> a[0] == b[0] { LessAtHeads(a, b, k); }
      if a[0] == b[0] {
        LessIsLexicographic(a[1..], b[1..]);
        if Less(a, b) {
          var k: nat :| LessAt(a[1..], b[1..], k);
          LessAtShifts(a, b, k);
        } else if k: nat :| LessAt(a, b, k) {
          LessAtShifts(a, b, k - 1);
        }
      } else {
        assert LessAt(a, b, 0) <==> a[0] < b[0];
      }
    } else {
      assert LessAt(a, b, 0) <==> a == [] && b != [];
    }
  }

  /** Insertion into an ordered list of names. */
  function Insert(names: seq<string>, name: string): (r: seq<string>)
    ensures |r| == |names| + 1
    ensures forall x :: x in r <==> x in names || x == name
  {
    if names == [] || Less(name, names[0]) then [name] + names
    else
      var rest := Insert(names[1..], name);
      assert forall x :: x in names <==> x == names[0] || x in names[1..];
      [names[0]] + rest
  }

  predicate IsPrivate(table: Table, name: string) {
    name in table && table[name].kind == AliasName && StartsWith(name, "_")
  }

  /** The private aliases in name order. */
  function PrivateAliases(p: seq<LineKind>): seq<string> {
    if p == [] then []
    else
      var names := PrivateAliases(p[..|p| - 1]);
      match Declared(p[|p| - 1], |p| - 1)
      case None => names
      case Some((name, symbol)) =>
        if name !in Collect(p[..|p| - 1]) && IsPrivate(Collect(p), name) then Insert(names, name) else names
  }

  predicate InOrder(names: seq<string>) { forall i, j :: 0 <= i < j < |names| ==> Less(names[i], names[j]) }

  lemma {:induction false} InsertKeepsOrder(names: seq<string>, name: string)
    requires InOrder(names) && name !in names
    ensures InOrder(Insert(names, name))
  {
    if names != [] {
      LessTotal(name, names[0]);
      if Less(name, names[0]) {
        forall x | x in names ensures Less(name, x) { if x != names[0] { LessTransitive(name, names[0], x); } }
      } else {
        InsertKeepsOrder(names[1..], name);
        var rest := Insert(names[1..], name);
        forall x | x in rest ensures Less(names[0], x) {
          if x != name {
            var i :| 0 <= i < |names| - 1 && names[1..][i] == x;
            assert names[i + 1] == x;
          }
        }
      }
    }
  }

  /** The short names go to the private aliases in the order of their names, each once. */
  lemma {:induction false} PrivateAliasesInOrder(p: seq<LineKind>)
    ensures InOrder(PrivateAliases(p))
  {
    if p != [] {
      PrivateAliasesInOrder(p[..|p| - 1]);
      match Declared(p[|p| - 1], |p| - 1)
      case None =>
      case Some((name, _)) =>
        PrivateAliasesAre(p[..|p| - 1], name);
        if name !in Collect(p[..|p| - 1]) && IsPrivate(Collect(p), name) {
          InsertKeepsOrder(PrivateAliases(p[..|p| - 1]), name);
        }
    }
  }

  function LongEnough(occupied: set<string>, n: nat): set<string> { set x | x in occupied && |x| >= n }

  predicate EndsWith(s: string, suffix: string) { |suffix| <= |s| && s[|s| - |suffix|..] == suffix }

  lemma EndsWithTail(s: string, suffix: string)
    requires suffix != [] && EndsWith(s, suffix)
    ensures EndsWith(s, suffix[1..])
  {}

  /** The last `k` characters. */
  function Ending(s: string, k: nat): string { if k <= |s| then s[|s| - k..] else s }

  /** Prefix the candidate with `a` until no declared symbol has it: no shorter one will do. */
  function FreshName(candidate: string, occupied: set<string>): (r: string)
    ensures r !in occupied && EndsWith(r, candidate)
    ensures forall k :: |candidate| <= k < |r| ==> Ending(r, k) in occupied
    decreases |LongEnough(occupied, |candidate|)|
  {
    if candidate in occupied then
      Shrinks(LongEnough(occupied, |candidate|), LongEnough(occupied, |candidate| + 1), candidate);
      var r := FreshName("a" + candidate, occupied);
      assert candidate == ("a" + candidate)[1..];
      assert Ending(r, |candidate|) == candidate by { assert r[|r| - |candidate| - 1..][1..] == candidate; }
      EndsWithTail(r, "a" + candidate);
      r
    else candidate
  }

  function ShortName(index: nat, occupied: set<string>): string { FreshName("a" + NatText(index), occupied) }

  /** The short name of each private alias. */
  function ShortNames(names: seq<string>, occupied: set<string>): Values {
    map name | name in names :: ShortName(Position(names, name), occupied)
  }

  function Position(names: seq<string>, name: string): (i: nat)
    requires name in names
    ensures i < |names| && names[i] == name
  {
    if names[0] == name then 0 else 1 + Position(names[1..], name)
  }

  lemma {:induction false} NatTextInjective(m: nat, n: nat)
    requires NatText(m) == NatText(n)
    ensures m == n
  {
    NatTextValue(m);
    NatTextValue(n);
  }

  lemma LongestDigits(r: string, d: string, e: string)
    requires EndsWith(r, "a" + d) && EndsWith(r, "a" + e) && |d| <= |e| && 'a' !in e
    ensures d == e
  {
    var k := |e| - |d|;
    assert r[|r| - |d| - 1..][0] == 'a' && r[|r| - |e| - 1..][k] == ("a" + e)[k];
    assert d == ("a" + d)[1..] && e == ("a" + e)[1..];
  }

  /** In a short name the digits after the run of `a`s are the index. */
  lemma ShortNamesDiffer(i: nat, j: nat, occupied: set<string>)
    requires ShortName(i, occupied) == ShortName(j, occupied)
    ensures i == j
  {
    hide FreshName, NatText;
    var di, dj := NatText(i), NatText(j);
    if |di| <= |dj| {
      LongestDigits(ShortName(i, occupied), di, dj);
    } else {
      LongestDigits(ShortName(i, occupied), dj, di);
    }
    NatTextInjective(i, j);
  }

  /** Substitution is capture-free: short names are pairwise distinct and no declared symbol has one. */
  lemma ShortNamesAreFresh(names: seq<string>, occupied: set<string>)
    ensures var short := ShortNames(names, occupied);
      && short.Keys == (set x | x in names)
      && (forall a :: a in short ==> short[a] !in occupied)
      && (forall a, b :: a in short && b in short && short[a] == short[b] ==> a == b)
  {
    var short := ShortNames(names, occupied);
    forall a, b | a in short && b in short && short[a] == short[b] ensures a == b {
      ShortNamesDiffer(Position(names, a), Position(names, b), occupied);
    }
  }

  lemma {:induction false} NotLessThanItself(a: string)
    ensures !Less(a, a)
  {
    if a != [] { NotLessThanItself(a[1..]); }
  }

  /** The `i`-th name gets `a` and the number `i`, behind as few further `a`s as will do. */
  lemma ShortNamesCount(names: seq<string>, occupied: set<string>, i: nat)
    requires InOrder(names) && i < |names|
    ensures var short := ShortNames(names, occupied)[names[i]];
      && EndsWith(short, "a" + NatText(i))
      && forall k :: |NatText(i)| < k < |short| ==> Ending(short, k) in occupied
  {
    var j := Position(names, names[i]);
    NotLessThanItself(names[i]);
    assert j == i;
  }

  /** The listed private aliases are exactly the alias symbols whose name starts with an underscore. */
  lemma {:induction false} PrivateAliasesAre(p: seq<LineKind>, name: string)
    ensures name in PrivateAliases(p) <==> IsPrivate(Collect(p), name)
    ensures IsPrivate(Collect(p), name) <==>
      name in Collect(p) && Collect(p)[name].kind == AliasName && name != [] && name[0] == '_'
  {
    assert name != [] ==> name[..1] == [name[0]];
    if p != [] { PrivateAliasesAre(p[..|p| - 1], name); }
  }
}
