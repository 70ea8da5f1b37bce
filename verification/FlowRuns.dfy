/**
 Which lines reported unreachable the machine can execute. The analysis follows
 the targets it understands; the machine follows its own. A reported line runs in
 some run exactly when a branch that is surely reached leads to one.
 */
module FlowRuns {
  import opened Prelude
  import opened Text
  import opened Literals
  import opened Symbols
  import opened Machine
  import opened Flow

  // ----- where operations lead -----

  /** Where a branch goes when taken: to no line, to one line in every run, or wherever a register says. */
  datatype Goal = Nowhere | Goes(line: nat) | Anywhere

  function GoalAt(base: nat, v: Option<int>): Goal {
    if v.Some? && base + v.value >= 0 then Goes(base + v.value) else Nowhere
  }

  function GoalOf(p: seq<LineKind>, number: string -> Option<int>, i: nat): Goal
    requires i < |p| && p[i].Instruction?
  {
    var m, operands := Lower(p[i].mnemonic), p[i].operands;
    if !IsBranch(m) || operands == [] then Nowhere
    else match TargetOf(p, i, m, operands[|operands| - 1])
      case Fixed(d) => GoalAt(0, Some(d))
      case Computed(o) => if o.Word? then GoalAt(if IsRelative(m) then i else 0, number(o.text)) else Anywhere
  }

  /** May the machine go on with the next line? */
  predicate Falls(p: seq<LineKind>, i: nat)
    requires i < |p| && p[i].Instruction?
  {
    var m := Lower(p[i].mnemonic);
    m != "hcf" && (!IsBranch(m) || (p[i].operands != [] && !IsJump(m)))
  }

  /** From operation `i` some run goes on with operation `j`, whatever the registers hold. */
  predicate Sure(p: seq<LineKind>, number: string -> Option<int>, i: nat, j: nat) {
    && i < |p| && p[i].Instruction?
    && ((Falls(p, i) && NextOperation(p, i + 1) == Some(j))
        || (GoalOf(p, number, i).Goes? && NextOperation(p, GoalOf(p, number, i).line) == Some(j)))
  }

  ghost predicate IsRoute(p: seq<LineKind>, number: string -> Option<int>, route: seq<nat>) {
    && route != [] && NextOperation(p, 0) == Some(route[0])
    && forall k :: 0 <= k < |route| - 1 ==> Sure(p, number, route[k], route[k + 1])
  }

  ghost predicate SurelyReached(p: seq<LineKind>, number: string -> Option<int>, i: nat) {
    exists route :: IsRoute(p, number, route) && route[|route| - 1] == i
  }

  /** The branch at line `i` leads to an operation that is reported unreachable. */
  ghost predicate Strays(l: Language, p: seq<LineKind>, number: string -> Option<int>, i: nat) {
    && i < |p| && p[i].Instruction?
    && match GoalOf(p, number, i)
       case Nowhere => false
       case Goes(d) => NextOperation(p, d).Some? && Reported(l, p, NextOperation(p, d).value)
       case Anywhere => exists j :: 0 <= j < |p| && IsOperation(p[j]) && Reported(l, p, j)
  }

  // ----- engines and runs -----

  /** The target of the branch at line `i` comes down to a word that is no literal. */
  predicate IsTargetWord(p: seq<LineKind>, i: nat, w: string) {
    && i < |p| && p[i].Instruction? && IsBranch(Lower(p[i].mnemonic)) && p[i].operands != []
    && TargetOf(p, i, Lower(p[i].mnemonic), p[i].operands[|p[i].operands| - 1]) == Computed(Word(w))
  }

  /** An engine in which `hcf` halts and the words that are targets denote these numbers. */
  ghost predicate Honest<S(!new)>(p: seq<LineKind>, e: Engine<S>, number: string -> Option<int>) {
    && (forall data, s, ra, line :: e.execute("hcf", data, s, ra, line).0.Halt?)
    && forall i: nat, w, s, ra :: IsTargetWord(p, i, w) ==> e.compute(Word(w), s, ra) == number(w)
  }

  /** After `n` steps from the start the next operation is the one at line `i`. */
  ghost predicate Executes<S>(p: seq<LineKind>, e: Engine<S>, ra: nat, s: S, n: nat, i: nat) {
    var c := Run(p, e, Config(0, ra, s, true), n);
    c.running && NextOperation(p, c.pc) == Some(i)
  }

  // ----- analysed paths -----

  /** Where the machine may be: past the end, or on a line the analysis reaches. */
  ghost predicate OnPath(edges: seq<seq<nat>>, pc: nat) { pc >= |edges| || Reachable(edges, pc) }

  lemma FallsThrough(l: Language, p: seq<LineKind>, i: nat)
    requires i < |p| && Reachable(Edges(l, p), i)
    requires !p[i].Instruction? ||
        (p[i].mnemonic != "hcf" && (!IsKnownBranch(p[i].mnemonic) || !IsUnconditional(p[i].mnemonic)))
    ensures OnPath(Edges(l, p), i + 1)
  {
    hide Reachable, TargetAt, Collect, IsKnownBranch, IsUnconditional, LinksReturn;
    if i + 1 < |p| {
      assert i + 1 in Following(|p|, i);
      assert i + 1 in EdgesAt(l, p, Collect(p), i);
      ReachableStep(Edges(l, p), i, i + 1);
    }
  }

  lemma {:induction false} NextIsOnPath(l: Language, p: seq<LineKind>, pc: nat)
    requires OnPath(Edges(l, p), pc)
    ensures match NextOperation(p, pc) case None => true case Some(i) => Reachable(Edges(l, p), i)
    decreases |p| - pc
  {
    hide Reachable, EdgesAt;
    if pc < |p| && !IsOperation(p[pc]) {
      SkippedLine(p[pc]);
      FallsThrough(l, p, pc);
      NextIsOnPath(l, p, pc + 1);
    }
  }

  lemma SkippedLine(k: LineKind)
    requires !IsOperation(k)
    ensures !k.Instruction? || (k.mnemonic != "hcf" && !IsKnownBranch(k.mnemonic))
  {
    assert "alias"[0] == 'a' && "define"[0] == 'd';
    if k.Instruction? { RelativeStart(k.mnemonic); }
  }

  lemma RelativeStart(m: string)
    ensures StartsWith(m, "br") ==> m[0] == 'b'
  {
    assert StartsWith(m, "br") ==> m[..2][0] == 'b';
  }

  lemma ReachedIsNotReported(l: Language, p: seq<LineKind>, i: nat)
    requires Reachable(Edges(l, p), i)
    ensures !Reported(l, p, i)
  {}

  /** The analysis follows every fall-through. */
  lemma FallIsOnPath(l: Language, p: seq<LineKind>, i: nat)
    requires i < |p| && p[i].Instruction? && Falls(p, i) && Reachable(Edges(l, p), i)
    ensures match NextOperation(p, i + 1)
      case None => true
      case Some(j) => Reachable(Edges(l, p), j)
  {
    hide Reachable, Edges, IsKnownBranch;
    FallingMnemonic(p[i].mnemonic);
    FallsThrough(l, p, i);
    NextIsOnPath(l, p, i + 1);
  }

  lemma FallingMnemonic(m: string)
    ensures m == "hcf" || IsUnconditional(m) ==> Lower(m) == "hcf" || IsJump(Lower(m))
  {
    assert Lower("hcf") == "hcf" && Lower("j") == "j" && Lower("jr") == "jr";
  }

  // ----- every run is accounted for -----

  /** Where a step goes. */
  lemma PerformGoes<S(!new)>(p: seq<LineKind>, number: string -> Option<int>, e: Engine<S>, i: nat, c: Config<S>)
    requires Honest(p, e, number) && i < |p| && p[i].Instruction? && Perform(p, e, i, p[i], c).running
    ensures var pc := Perform(p, e, i, p[i], c).pc;
      (Falls(p, i) && pc == i + 1) || GoalOf(p, number, i) == Goes(pc) || GoalOf(p, number, i) == Anywhere
  {
    hide ReadAll, NamesReturnAddress, IsRelative, TargetOf, IsBranch, Lower, Links, Jump;
    var k := p[i];
    var m := Lower(k.mnemonic);
    if IsBranch(m) && k.operands != [] {
      forall s, ra | Jump(p, e, i, k, s, ra).running
        ensures GoalOf(p, number, i) == Goes(Jump(p, e, i, k, s, ra).pc) || GoalOf(p, number, i) == Anywhere
      {
        JumpGoes(p, number, e, i, s, ra);
      }
      NoBranchOnFire(m);
    }
  }

  lemma JumpGoes<S(!new)>(p: seq<LineKind>, number: string -> Option<int>, e: Engine<S>, i: nat, s: S, ra: nat)
    requires Honest(p, e, number) && i < |p| && p[i].Instruction? && p[i].operands != []
    requires IsBranch(Lower(p[i].mnemonic))
    requires Jump(p, e, i, p[i], s, ra).running
    ensures GoalOf(p, number, i) == Goes(Jump(p, e, i, p[i], s, ra).pc) || GoalOf(p, number, i) == Anywhere
  {
    hide IsRelative, TargetOf, IsBranch, Lower, Links;
    match TargetOf(p, i, Lower(p[i].mnemonic), p[i].operands[|p[i].operands| - 1])
    case Fixed(_) =>
    case Computed(o) => assert o.Word? ==> IsTargetWord(p, i, o.text);
  }

  lemma NoBranchOnFire(m: string)
    ensures m == "hcf" ==> !IsBranch(m)
  {
    assert "hcf"[..1] == "h";
  }

  /** Every operation surely reached leads only to lines that are not reported. */
  ghost predicate NeverStrays(l: Language, p: seq<LineKind>, number: string -> Option<int>) {
    forall k: nat :: SurelyReached(p, number, k) ==> !Strays(l, p, number, k)
  }

  ghost predicate Accounted<S>(l: Language, p: seq<LineKind>, number: string -> Option<int>, c: Config<S>) {
    c.running ==>
      match NextOperation(p, c.pc)
      case None => true
      case Some(i) => SurelyReached(p, number, i) && !Reported(l, p, i)
  }

  lemma RouteGrows(p: seq<LineKind>, number: string -> Option<int>, i: nat, j: nat)
    requires SurelyReached(p, number, i) && Sure(p, number, i, j)
    ensures SurelyReached(p, number, j)
  {
    hide Sure;
    var route :| IsRoute(p, number, route) && route[|route| - 1] == i;
    var longer := route + [j];
    assert IsRoute(p, number, longer) by {
      forall k | 0 <= k < |longer| - 1 ensures Sure(p, number, longer[k], longer[k + 1]) {
        if k < |route| - 1 { assert longer[k + 1] == route[k + 1]; }
      }
    }
    assert longer[|longer| - 1] == j;
  }

  lemma StepAccounted<S(!new)>(l: Language, p: seq<LineKind>, number: string -> Option<int>, e: Engine<S>, c: Config<S>,
                        r: nat)
    requires Honest(p, e, number) && NeverStrays(l, p, number) && Accounted(l, p, number, c)
    requires Reported(l, p, r) && IsOperation(p[r])
    ensures Accounted(l, p, number, Step(p, e, c))
  {
    hide SurelyReached, Honest, Perform, GoalOf, Falls, Reachable, Edges, HasDynamicTarget;
    if c.running && NextOperation(p, c.pc).Some? && Step(p, e, c).running {
      var i := NextOperation(p, c.pc).value;
      var pc := Step(p, e, c).pc;
      PerformGoes(p, number, e, i, c);
      assert !Strays(l, p, number, i);
      if GoalOf(p, number, i) == Anywhere {
        assert false;
      } else if NextOperation(p, pc).Some? {
        var j := NextOperation(p, pc).value;
        RouteGrows(p, number, i, j);
        if !(GoalOf(p, number, i) == Goes(pc)) { FallIsOnPath(l, p, i); }
      }
    }
  }

  lemma {:induction false} RunAccounted<S(!new)>(l: Language, p: seq<LineKind>, number: string -> Option<int>,
                          e: Engine<S>, c: Config<S>, n: nat, r: nat)
    requires Honest(p, e, number) && NeverStrays(l, p, number) && Accounted(l, p, number, c)
    requires Reported(l, p, r) && IsOperation(p[r])
    ensures Accounted(l, p, number, Run(p, e, c, n))
    decreases n
  {
    hide Honest, NeverStrays, Accounted, Reported, Step;
    if n > 0 {
      StepAccounted(l, p, number, e, c, r);
      RunAccounted(l, p, number, e, Step(p, e, c), n - 1, r);
    }
  }

  lemma StartAccounted<S>(l: Language, p: seq<LineKind>, number: string -> Option<int>, ra: nat, s: S)
    ensures Accounted(l, p, number, Config(0, ra, s, true))
  {
    hide Reachable, Edges, EdgesAt, Reported;
    if NextOperation(p, 0).Some? {
      var i := NextOperation(p, 0).value;
      assert IsRoute(p, number, [i]) && [i][|[i]| - 1] == i;
      ReachableStart(Edges(l, p)) by { EdgesOfSome(l, p); }
      NextIsOnPath(l, p, 0);
      ReachedIsNotReported(l, p, i);
    }
  }

  lemma EdgesOfSome(l: Language, p: seq<LineKind>)
    requires p != []
    ensures Edges(l, p) != []
  {}

  /** A run of any engine that executes a reported line means that a surely reached branch strays. */
  lemma ReportedRunStrays<S(!new)>(l: Language, p: seq<LineKind>, number: string -> Option<int>, e: Engine<S>, ra: nat,
                          s: S, n: nat, i: nat)
    requires Honest(p, e, number) && Executes(p, e, ra, s, n, i) && Reported(l, p, i)
    ensures exists k: nat :: SurelyReached(p, number, k) && Strays(l, p, number, k)
  {
    hide Honest, Strays, SurelyReached, Reported, Run;
    if NeverStrays(l, p, number) {
      StartAccounted(l, p, number, ra, s);
      RunAccounted(l, p, number, e, Config(0, ra, s, true), n, i);
    }
  }

  // ----- every stray branch is taken in some run -----

  /** An engine whose state is the list of conditions to come; every register holds `v`. */
  function Steer(number: string -> Option<int>, v: int): Engine<seq<bool>> {
    Engine((m, data, s, ra, line) => (if m == "hcf" then Halt(s) else Continue(s), 0),
           (m, data, s: seq<bool>, ra) => if s != [] && s[0] then Taken(s[1..])
             else NotTaken(if s == [] then s else s[1..]),
           (o: Operand, s, ra) => if o.Word? then number(o.text) else Some(v))
  }

  lemma SteerIsHonest(p: seq<LineKind>, number: string -> Option<int>, v: int)
    ensures Honest(p, Steer(number, v), number)
  {}

  lemma {:induction false} RunOneMore<S>(p: seq<LineKind>, e: Engine<S>, c: Config<S>, n: nat)
    ensures Run(p, e, c, n + 1) == Step(p, e, Run(p, e, c, n))
    decreases n
  {
    hide Step;
    if n > 0 { RunOneMore(p, e, Step(p, e, c), n - 1); }
  }

  /** The condition that makes the operation at line `i` jump, or go on. */
  function Choice(p: seq<LineKind>, i: nat, jump: bool): seq<bool>
    requires i < |p| && p[i].Instruction?
  {
    var m := Lower(p[i].mnemonic);
    if IsBranch(m) && !IsJump(m) then [jump] else []
  }

  /** A branch whose goal is a line, or that reads a register, can be made to go there. */
  lemma SteersTo(p: seq<LineKind>, number: string -> Option<int>, v: int, i: nat, rest: seq<bool>, c: Config<seq<bool>>)
    requires i < |p| && IsOperation(p[i]) && p[i].Instruction? && c.running && NextOperation(p, c.pc) == Some(i)
    requires c.state == Choice(p, i, true) + rest
    ensures var next := Step(p, Steer(number, v), c);
      match GoalOf(p, number, i)
      case Nowhere => true
      case Goes(d) => next.running && next.state == rest && next.pc == d
      case Anywhere =>
        var line := (if IsRelative(Lower(p[i].mnemonic)) then i else 0) + v;
        line >= 0 ==> next.running && next.state == rest && next.pc == line
  {
    hide ReadAll, NamesReturnAddress, IsRelative, TargetOf, IsBranch, Lower, Links, DataOperands;
    var m := Lower(p[i].mnemonic);
    if IsBranch(m) && p[i].operands != [] {
      assert c.state[|Choice(p, i, true)|..] == rest;
      assert Step(p, Steer(number, v), c) == Jump(p, Steer(number, v), i, p[i], rest, c.ra) by {
        if IsJump(m) { assert c.state == rest; }
      }
    }
  }

  /** An operation that may go on can be made to. */
  lemma SteersOn(p: seq<LineKind>, number: string -> Option<int>, v: int, i: nat, rest: seq<bool>, c: Config<seq<bool>>)
    requires i < |p| && IsOperation(p[i]) && p[i].Instruction? && c.running && NextOperation(p, c.pc) == Some(i)
    requires Falls(p, i) && c.state == Choice(p, i, false) + rest
    ensures var next := Step(p, Steer(number, v), c); next.running && next.state == rest && next.pc == i + 1
  {
    hide ReadAll, NamesReturnAddress, IsBranch, Lower, DataOperands, Jump;
    assert c.state[|Choice(p, i, false)|..] == rest;
  }

  /** Some run follows the route, with any conditions left for what comes after. */
  lemma {:induction false} RouteRuns(p: seq<LineKind>, number: string -> Option<int>, v: int, route: seq<nat>,
                          rest: seq<bool>)
    returns (s: seq<bool>, n: nat)
    requires IsRoute(p, number, route)
    ensures Executes(p, Steer(number, v), 0, s, n, route[|route| - 1])
    ensures Run(p, Steer(number, v), Config(0, 0, s, true), n).state == rest
    decreases |route|
  {
    hide Steer, GoalOf, Falls, Step;
    var m := |route| - 1;
    if m == 0 {
      s, n := rest, 0;
    } else {
      var i, j := route[m - 1], route[m];
      assert Sure(p, number, route[m - 1], route[m - 1 + 1]);
      assert IsRoute(p, number, route[..m]);
      var jump := !(Falls(p, i) && NextOperation(p, i + 1) == Some(j));
      s, n := RouteRuns(p, number, v, route[..m], Choice(p, i, jump) + rest);
      var c := Run(p, Steer(number, v), Config(0, 0, s, true), n);
      RunOneMore(p, Steer(number, v), Config(0, 0, s, true), n);
      if jump { SteersTo(p, number, v, i, rest, c); } else { SteersOn(p, number, v, i, rest, c); }
      n := n + 1;
    }
  }

  /** Some run executes any operation surely reached. */
  lemma ReachedRuns(p: seq<LineKind>, number: string -> Option<int>, v: int, i: nat) returns (s: seq<bool>, n: nat)
    requires SurelyReached(p, number, i)
    ensures Executes(p, Steer(number, v), 0, s, n, i)
  {
    hide Steer, Sure, Executes;
    var route :| IsRoute(p, number, route) && route[|route| - 1] == i;
    s, n := RouteRuns(p, number, v, route, []);
  }

  /** A surely reached branch that reads a register can be sent to any operation. */
  lemma RegisterRuns(p: seq<LineKind>, number: string -> Option<int>, k: nat, i: nat)
    returns (v: int, s: seq<bool>, n: nat)
    requires SurelyReached(p, number, k) && k < |p| && p[k].Instruction? && GoalOf(p, number, k) == Anywhere
    requires i < |p| && IsOperation(p[i])
    ensures Executes(p, Steer(number, v), 0, s, n, i)
  {
    hide Steer, Sure, GoalOf, Run, Step, IsRelative, IsDirective, Choice;
    var base := if IsRelative(Lower(p[k].mnemonic)) then k else 0;
    v := i - base;
    var route :| IsRoute(p, number, route) && route[|route| - 1] == k;
    s, n := RouteRuns(p, number, v, route, Choice(p, k, true));
    var c := Run(p, Steer(number, v), Config(0, 0, s, true), n);
    RunOneMore(p, Steer(number, v), Config(0, 0, s, true), n);
    assert Choice(p, k, true) + [] == Choice(p, k, true);
    SteersTo(p, number, v, k, [], c);
    n := n + 1;
  }

  /** A surely reached branch that strays means that some run executes a reported line. */
  lemma StrayRuns(l: Language, p: seq<LineKind>, number: string -> Option<int>, k: nat)
    returns (v: int, s: seq<bool>, n: nat, i: nat)
    requires SurelyReached(p, number, k) && Strays(l, p, number, k)
    ensures Reported(l, p, i) && Honest(p, Steer(number, v), number) && Executes(p, Steer(number, v), 0, s, n, i)
  {
    hide Steer, GoalOf, Reported, Falls, SurelyReached, Executes, Honest;
    if GoalOf(p, number, k).Goes? {
      v, i := 0, NextOperation(p, GoalOf(p, number, k).line).value;
      RouteGrows(p, number, k, i);
      s, n := ReachedRuns(p, number, v, i);
    } else {
      i :| 0 <= i < |p| && IsOperation(p[i]) && Reported(l, p, i);
      v, s, n := RegisterRuns(p, number, k, i);
    }
    SteerIsHonest(p, number, v);
  }

  /** Exactly when some surely reached branch strays does some run of some engine execute a reported line. */
  lemma ReportedRunsExactly(l: Language, p: seq<LineKind>, number: string -> Option<int>)
    ensures (exists e: Engine<seq<bool>>, ra: nat, s: seq<bool>, n: nat, i: nat ::
               Reported(l, p, i) && Honest(p, e, number) && Executes(p, e, ra, s, n, i))
            <==> exists k: nat :: SurelyReached(p, number, k) && Strays(l, p, number, k)
  {
    hide Honest, Strays, SurelyReached, Reported, Executes;
    if e: Engine<seq<bool>>, ra: nat, s: seq<bool>, n: nat, i: nat :|
      Reported(l, p, i) && Honest(p, e, number) && Executes(p, e, ra, s, n, i)
    {
      ReportedRunStrays(l, p, number, e, ra, s, n, i);
    }
    if k: nat :| SurelyReached(p, number, k) && Strays(l, p, number, k) {
      var v, s, n, i := StrayRuns(l, p, number, k);
    }
  }
}
