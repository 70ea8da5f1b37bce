/**
 Control-flow analysis: the edges of a program, the lines reachable from its start, and the lines reported
 unreachable.
 */
module Flow {
  import opened Prelude
  import opened Text
  import opened Literals
  import opened Symbols
  import opened Machine
  import opened Carrying

  /**
   What the analysis knows of the language: register names, and constants, enum members and literal macros that are
   integers.
   */
  datatype Language = Language(isRegister: string -> bool, constant: string -> Option<int>)

  // ----- operands -----

  /** Follow the values of symbols of any kind; fails on a cycle and at a symbol without a value. */
  function ResolveSymbol(table: Table, current: string, seen: set<string>): Option<string>
    decreases |table.Keys - seen|
  {
    if current !in table then Some(current)
    else if current in seen || table[current].value.None? then None
    else
      Shrinks(table.Keys - seen, table.Keys - (seen + {current}), current);
      ResolveSymbol(table, table[current].value.value, seen + {current})
  }

  method ResolveSymbolLoop(table: Table, token: string) returns (r: Option<string>)
    ensures r == ResolveSymbol(table, token, {})
  {
    var current, seen: set<string> := token, {};
    while current in table
      invariant ResolveSymbol(table, current, seen) == ResolveSymbol(table, token, {})
      decreases |table.Keys - seen|
    {
      if current in seen { return None; }
      if table[current].value.None? { return None; }
      Shrinks(table.Keys - seen, table.Keys - (seen + {current}), current);
      seen := seen + {current};
      current := table[current].value.value;
    }
    r := Some(current);
  }

  function NumberOf(l: Language, token: string): Option<int> {
    match ParseInteger(token) case Some(v) => Some(v) case None => l.constant(token)
  }

  function ResolveNumber(l: Language, table: Table, token: string): Option<int> {
    match NumberOf(l, token)
    case Some(v) => Some(v)
    case None =>
      match ResolveSymbol(table, token, {})
      case None => None
      case Some(value) => if value == token then None else NumberOf(l, value)
  }

  function BranchTarget(l: Language, table: Table, line: nat, m: string, token: string): Option<nat> {
    if IsLabelSymbol(table, token) then Some(table[token].line)
    else match ResolveNumber(l, table, token)
      case None => None
      case Some(v) =>
        var target := if IsRelative(m) then line + v else v;
        if target >= 0 then Some(target) else None
  }

  predicate ResolvesToRegister(l: Language, table: Table, token: string) {
    l.isRegister(token)
    || match ResolveSymbol(table, token, {})
       case None => false
       case Some(value) => value != token && l.isRegister(value)
  }

  predicate MayBeDynamic(l: Language, table: Table, token: string) {
    ResolvesToRegister(l, table, token) || (token in table && table[token].kind == AliasName)
  }

  // ----- edges -----

  predicate IsKnownBranch(m: string) { m == "jr" || IsAbsoluteBranch(m) || StartsWith(m, "br") }

  predicate IsUnconditional(m: string) { m == "j" || m == "jr" }

  predicate LinksReturn(m: string) { m == "jal" || Links(m) }

  function Following(n: nat, i: nat): seq<nat> { if i + 1 < n then [i + 1] else [] }

  function TargetAt(l: Language, p: seq<LineKind>, table: Table, i: nat): Option<nat>
    requires i < |p| && p[i].Instruction?
  {
    var operands := p[i].operands;
    if operands == [] then None else BranchTarget(l, table, i, p[i].mnemonic, operands[|operands| - 1])
  }

  function EdgesAt(l: Language, p: seq<LineKind>, table: Table, i: nat): seq<nat>
    requires i < |p|
  {
    if !p[i].Instruction? then Following(|p|, i)
    else if p[i].mnemonic == "hcf" then []
    else if !IsKnownBranch(p[i].mnemonic) then Following(|p|, i)
    else
      var target := TargetAt(l, p, table, i);
      (if target.Some? && target.value < |p| then [target.value] else [])
      + if !IsUnconditional(p[i].mnemonic) || LinksReturn(p[i].mnemonic) then Following(|p|, i) else []
  }

  predicate DynamicAt(l: Language, p: seq<LineKind>, table: Table, i: nat)
    requires i < |p|
  {
    && p[i].Instruction? && p[i].mnemonic != "hcf" && IsKnownBranch(p[i].mnemonic) && p[i].operands != []
    && !(TargetAt(l, p, table, i).Some? && TargetAt(l, p, table, i).value < |p|)
    && MayBeDynamic(l, table, p[i].operands[|p[i].operands| - 1])
  }

  function Edges(l: Language, p: seq<LineKind>): (r: seq<seq<nat>>)
    ensures |r| == |p|
  {
    seq(|p|, i requires 0 <= i < |p| => EdgesAt(l, p, Collect(p), i))
  }

  predicate HasDynamicTarget(l: Language, p: seq<LineKind>) {
    exists i :: 0 <= i < |p| && DynamicAt(l, p, Collect(p), i)
  }

  method LineEdges(l: Language, p: seq<LineKind>, table: Table, i: nat) returns (out: seq<nat>, dynamic: bool)
    requires i < |p|
    ensures out == EdgesAt(l, p, table, i) && (dynamic <==> DynamicAt(l, p, table, i))
  {
    hide TargetAt, MayBeDynamic, IsKnownBranch, Following, IsUnconditional, LinksReturn;
    if !p[i].Instruction? { return Following(|p|, i), false; }
    var m, operands := p[i].mnemonic, p[i].operands;
    if m == "hcf" { return [], false; }
    if !IsKnownBranch(m) { return Following(|p|, i), false; }
    dynamic := false;
    var target := TargetAt(l, p, table, i);
    if target.Some? && target.value < |p| {
      out := [target.value];
    } else {
      out := [];
      dynamic := operands != [] && MayBeDynamic(l, table, operands[|operands| - 1]);
    }
    if !IsUnconditional(m) || LinksReturn(m) { out := out + Following(|p|, i); }
  }

  method BuildEdges(l: Language, p: seq<LineKind>) returns (edges: seq<seq<nat>>, dynamic: bool)
    ensures edges == Edges(l, p) && (dynamic <==> HasDynamicTarget(l, p))
  {
    hide EdgesAt, DynamicAt, Collect;
    var table := Collect(p);
    edges, dynamic := [], false;
    for i := 0 to |p|
      invariant |edges| == i && forall j :: 0 <= j < i ==> edges[j] == EdgesAt(l, p, table, j)
      invariant dynamic <==> exists j :: 0 <= j < i && DynamicAt(l, p, table, j)
    {
      var out, here := LineEdges(l, p, table, i);
      edges := edges + [out];
      dynamic := dynamic || here;
    }
  }

  // ----- reachability -----

  ghost predicate WellFormed(edges: seq<seq<nat>>) {
    forall i, j :: 0 <= i < |edges| && 0 <= j < |edges[i]| ==> edges[i][j] < |edges|
  }

  /** A path from line 0 along edges. */
  ghost predicate IsPath(edges: seq<seq<nat>>, path: seq<nat>) {
    && path != [] && path[0] == 0 && (forall k :: 0 <= k < |path| ==> path[k] < |edges|)
    && (forall k :: 0 <= k < |path| - 1 ==> path[k + 1] in edges[path[k]])
  }

  ghost predicate Reachable(edges: seq<seq<nat>>, i: nat) {
    exists path :: IsPath(edges, path) && path[|path| - 1] == i
  }

  lemma ReachableStep(edges: seq<seq<nat>>, i: nat, j: nat)
    requires Reachable(edges, i) && i < |edges| && j in edges[i] && j < |edges|
    ensures Reachable(edges, j)
  {
    var path :| IsPath(edges, path) && path[|path| - 1] == i;
    var longer := path + [j];
    assert IsPath(edges, longer) by {
      forall k | 0 <= k < |longer| - 1 ensures longer[k + 1] in edges[longer[k]] {
        if k < |path| - 1 { assert longer[k + 1] == path[k + 1]; }
      }
    }
    assert longer[|longer| - 1] == j;
  }

  lemma ReachableStart(edges: seq<seq<nat>>)
    requires edges != []
    ensures Reachable(edges, 0)
  {
    assert IsPath(edges, [0]) && [0][|[0]| - 1] == 0;
  }

  /** Any set that contains line 0 and is closed under edges contains every reachable line. */
  lemma {:induction false} ClosedContainsPath(edges: seq<seq<nat>>, s: set<nat>, path: seq<nat>)
    requires IsPath(edges, path) && 0 in s
    requires forall i, j :: i in s && i < |edges| && j in edges[i] ==> j in s
    ensures path[|path| - 1] in s
  {
    var n := |path| - 1;
    if n > 0 {
      assert IsPath(edges, path[..n]);
      ClosedContainsPath(edges, s, path[..n]);
      assert path[n - 1 + 1] in edges[path[n - 1]];
    }
  }

  function Unmarked(marks: seq<bool>): nat {
    if marks == [] then 0 else Unmarked(marks[..|marks| - 1]) + if marks[|marks| - 1] then 0 else 1
  }

  lemma {:induction false} MarkingShrinks(marks: seq<bool>, i: nat)
    requires i < |marks| && !marks[i]
    ensures Unmarked(marks[i := true]) == Unmarked(marks) - 1
  {
    var n := |marks| - 1;
    if i < n {
      MarkingShrinks(marks[..n], i);
      assert marks[i := true][..n] == marks[..n][i := true];
    } else {
      assert marks[i := true][..n] == marks[..n];
    }
  }

  /** Breadth-first search from line 0 marks exactly the reachable lines. */
  method MarkReachable(edges: seq<seq<nat>>) returns (reachable: array<bool>)
    requires edges != [] && WellFormed(edges)
    ensures fresh(reachable) && reachable.Length == |edges|
    ensures forall i :: 0 <= i < |edges| ==> (reachable[i] <==> Reachable(edges, i))
  {
    hide Reachable, IsPath;
    reachable := new bool[|edges|](_ => false);
    var queue: seq<nat> := [0];
    ReachableStart(edges);
    while queue != []
      invariant forall k :: 0 <= k < |queue| ==> queue[k] < |edges| && Reachable(edges, queue[k])
      invariant forall i :: 0 <= i < |edges| && reachable[i] ==> Reachable(edges, i)
      invariant forall i, j ::
          0 <= i < |edges| && reachable[i] && j in edges[i] ==> j < |edges| && (reachable[j] || j in queue)
      invariant reachable[0] || 0 in queue
      decreases Unmarked(reachable[..]), |queue|
    {
      var index := queue[0];
      ghost var before, marks := queue, reachable[..];
      queue := queue[1..];
      assert forall j :: j in before ==> j == index || j in queue;
      if !reachable[index] {
        MarkingShrinks(marks, index);
        reachable[index] := true;
        assert reachable[..] == marks[index := true];
        queue := queue + edges[index];
        forall k | 0 <= k < |edges[index]| ensures edges[index][k] < |edges| && Reachable(edges, edges[index][k]) {
          assert edges[index][k] in edges[index];
          ReachableStep(edges, index, edges[index][k]);
        }
      }
    }
    ghost var s: set<nat> := set i | 0 <= i < |edges| && reachable[i];
    MarkedIsReachable(edges, s);
  }

  lemma MarkedIsReachable(edges: seq<seq<nat>>, s: set<nat>)
    requires 0 in s && forall i, j :: i in s && i < |edges| && j in edges[i] ==> j in s
    ensures forall i :: 0 <= i < |edges| && Reachable(edges, i) ==> i in s
  {
    forall i | 0 <= i < |edges| && Reachable(edges, i) ensures i in s {
      var path :| IsPath(edges, path) && path[|path| - 1] == i;
      ClosedContainsPath(edges, s, path);
    }
  }

  // ----- what is reported -----

  lemma EdgesAreWellFormed(l: Language, p: seq<LineKind>)
    ensures WellFormed(Edges(l, p))
  {
    hide TargetAt, Collect, IsKnownBranch;
    forall i, j | 0 <= i < |p| && 0 <= j < |Edges(l, p)[i]| ensures Edges(l, p)[i][j] < |p| {
      assert Edges(l, p)[i] == EdgesAt(l, p, Collect(p), i);
    }
  }

  /** The lines reported unreachable: none when a branch is dynamic, else the non-empty lines no path reaches. */
  ghost predicate Reported(l: Language, p: seq<LineKind>, i: nat) {
    !HasDynamicTarget(l, p) && i < |p| && p[i] != Empty && !Reachable(Edges(l, p), i)
  }

  method AnalyzeControlFlow(l: Language, p: seq<LineKind>) returns (flagged: seq<nat>)
    ensures forall i: nat :: i in flagged <==> Reported(l, p, i)
    ensures forall a, b :: 0 <= a < b < |flagged| ==> flagged[a] < flagged[b]
  {
    hide EdgesAt, DynamicAt, Reachable;
    flagged := [];
    if p == [] { return; }
    var edges, dynamic := BuildEdges(l, p);
    if dynamic { return; }
    EdgesAreWellFormed(l, p);
    var reachable := MarkReachable(edges);
    for i := 0 to |p|
      invariant forall k: nat :: k in flagged <==> k < i && Reported(l, p, k)
      invariant forall a, b :: 0 <= a < b < |flagged| ==> flagged[a] < flagged[b]
      invariant forall a :: 0 <= a < |flagged| ==> flagged[a] < i
    {
      if !reachable[i] && p[i] != Empty { flagged := flagged + [i]; }
    }
  }
}
