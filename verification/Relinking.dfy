/**
 Deleting lines from a program. `kept` lists the surviving source lines; `Rank`
 sends a source line to its place among them. Local conditions on each
 surviving line suffice for the two programs to run in lockstep for ever.
 */
module Relinking {
  import opened Prelude
  import opened Text
  import opened Machine

  ghost predicate Increasing(kept: seq<nat>, n: nat) {
    && (forall i, j :: 0 <= i < j < |kept| ==> kept[i] < kept[j])
    && (forall i :: 0 <= i < |kept| ==> kept[i] < n)
  }

  /** How many kept lines come before line `t`. */
  function Below(kept: seq<nat>, t: nat): (r: nat)
    ensures r <= |kept|
  {
    if kept == [] then 0 else Below(kept[..|kept| - 1], t) + if kept[|kept| - 1] < t then 1 else 0
  }

  /** Where source line `t` of an `n`-line program has moved; lines past the end move by the number of deletions. */
  function Rank(kept: seq<nat>, n: nat, t: nat): nat {
    Below(kept, t) + if t > n then t - n else 0
  }

  lemma {:induction false} BelowAll(kept: seq<nat>, t: nat)
    requires forall i :: 0 <= i < |kept| ==> kept[i] < t
    ensures Below(kept, t) == |kept|
  {
    if kept != [] { BelowAll(kept[..|kept| - 1], t); }
  }

  /** The kept lines before `t` are exactly the first `Below(kept, t)`. */
  lemma {:induction false} BelowIsPrefix(kept: seq<nat>, n: nat, t: nat, g: nat)
    requires Increasing(kept, n) && g < |kept|
    ensures g < Below(kept, t) <==> kept[g] < t
  {
    var m := |kept| - 1;
    if kept[m] < t {
      BelowAll(kept[..m], t);
    } else if g < m {
      BelowIsPrefix(kept[..m], n, t, g);
    }
  }

  lemma RankOfKept(kept: seq<nat>, n: nat, g: nat)
    requires Increasing(kept, n) && g < |kept|
    ensures Rank(kept, n, kept[g]) == g && Rank(kept, n, kept[g] + 1) == g + 1
  {
    BelowIsPrefix(kept, n, kept[g], g);
    BelowIsPrefix(kept, n, kept[g] + 1, g);
    if g > 0 { BelowIsPrefix(kept, n, kept[g], g - 1); }
    if g + 1 < |kept| { BelowIsPrefix(kept, n, kept[g] + 1, g + 1); }
  }

  lemma KeptAtLeastIndex(kept: seq<nat>, n: nat, g: nat)
    requires Increasing(kept, n) && g < |kept|
    ensures g <= kept[g] <= n - (|kept| - g)
    decreases |kept|
  {
    if g > 0 { KeptAtLeastIndex(kept[..g], n, g - 1); }
    KeptAtMost(kept, n, g);
  }

  lemma {:induction false} KeptAtMost(kept: seq<nat>, n: nat, g: nat)
    requires Increasing(kept, n) && g < |kept|
    ensures kept[g] <= n - (|kept| - g)
    decreases |kept| - g
  {
    if g + 1 < |kept| { KeptAtMost(kept, n, g + 1); }
  }

  /** Nothing deleted: every line stays where it is. */
  lemma NothingDeleted(kept: seq<nat>, n: nat, t: nat)
    requires Increasing(kept, n) && |kept| == n
    ensures Rank(kept, n, t) == t
    ensures forall g :: 0 <= g < n ==> kept[g] == g
  {
    forall g | 0 <= g < n ensures kept[g] == g { KeptAtLeastIndex(kept, n, g); }
    if t < n {
      RankOfKept(kept, n, t);
    } else {
      BelowAll(kept, t);
    }
  }

  // ----- local conditions -----

  /** A destination moves to the rank of the original one; one before the program stays before it. */
  ghost predicate SameTarget(kept: seq<nat>, n: nat, source: Target, generated: Target) {
    match (source, generated)
    case (Fixed(d), Fixed(d')) => if d < 0 then d' < 0 else d' == Rank(kept, n, d)
    case (Computed(w), Computed(w')) => w == w' && |kept| == n
    case _ => false
  }

  ghost predicate SameData(p: seq<LineKind>, q: seq<LineKind>, survivors: nat, a: LineKind, b: LineKind)
    requires a.Instruction? && b.Instruction?
  {
    && ReadAll(p, Lower(a.mnemonic), DataOperands(a)) == ReadAll(q, Lower(b.mnemonic), DataOperands(b))
    && (survivors == |p| || !NamesReturnAddress(ReadAll(p, Lower(a.mnemonic), DataOperands(a))))
  }

  ghost predicate SameOperation(p: seq<LineKind>, q: seq<LineKind>, kept: seq<nat>, g: nat)
    requires g < |kept| && kept[g] < |p| && g < |q|
  {
    var a, b := p[kept[g]], q[g];
    && a.Instruction? && b.Instruction?
    && Lower(a.mnemonic) == Lower(b.mnemonic) && |a.operands| == |b.operands|
    && (!IsJump(Lower(a.mnemonic)) ==> SameData(p, q, |kept|, a, b))
    && (MayReadLine(Lower(a.mnemonic), ReadAll(p, Lower(a.mnemonic), DataOperands(a))) ==> kept[g] == g)
    && (IsBranch(Lower(a.mnemonic)) && a.operands != [] ==>
          SameTarget(kept, |p|, TargetOf(p, kept[g], Lower(a.mnemonic), a.operands[|a.operands| - 1]),
                                TargetOf(q, g, Lower(b.mnemonic), b.operands[|b.operands| - 1])))
  }

  /** `q` is `p` with every line outside `kept` deleted and every surviving branch relinked. */
  ghost predicate Relinked(p: seq<LineKind>, q: seq<LineKind>, kept: seq<nat>) {
    && Increasing(kept, |p|) && |kept| <= |q|
    && (forall i :: 0 <= i < |p| && IsOperation(p[i]) ==> i in kept)
    && (forall g :: |kept| <= g < |q| ==> !IsOperation(q[g]))
    && (forall g :: 0 <= g < |kept| ==>
          (IsOperation(p[kept[g]]) <==> IsOperation(q[g])) && (IsOperation(q[g]) ==> SameOperation(p, q, kept, g)))
  }

  /** The generated configuration matching `c`. */
  function Moved<S>(kept: seq<nat>, n: nat, c: Config<S>): Config<S> {
    Config(Rank(kept, n, c.pc), Rank(kept, n, c.ra), c.state, c.running)
  }

  lemma NextOperationMoves(p: seq<LineKind>, q: seq<LineKind>, kept: seq<nat>, pc: nat) returns (g: nat)
    requires Relinked(p, q, kept)
    ensures match NextOperation(p, pc)
      case None => NextOperation(q, Rank(kept, |p|, pc)) == None
      case Some(i) =>
        (g < |kept| && kept[g] == i && IsOperation(q[g]) && NextOperation(q, Rank(kept, |p|, pc)) == Some(g))
  {
    g := 0;
    var r := Rank(kept, |p|, pc);
    var next := NextOperation(p, pc);
    if next.None? {
      NoneLeft(p, q, kept, pc, |kept|);
      FirstOperationIs(q, r, |q|);
    } else {
      assert next.value in kept;
      g :| 0 <= g < |kept| && kept[g] == next.value;
      BelowIsPrefix(kept, |p|, pc, g);
      NoneLeft(p, q, kept, pc, g);
      FirstOperationIs(q, r, g);
    }
  }

  lemma FirstOperationIs(q: seq<LineKind>, r: nat, g: nat)
    requires g <= |q| && (r <= g || g == |q|) && forall h :: r <= h < g ==> !IsOperation(q[h])
    requires g < |q| ==> IsOperation(q[g])
    ensures NextOperation(q, r) == if g < |q| then Some(g) else None
  {}

  /** Between the rank of `pc` and a kept line, the generated program has no operation if the source has none. */
  lemma NoneLeft(p: seq<LineKind>, q: seq<LineKind>, kept: seq<nat>, pc: nat, end: nat)
    requires Relinked(p, q, kept) && end <= |kept|
    requires forall j :: pc <= j < (if end < |kept| then kept[end] else |p|) ==> !IsOperation(p[j])
    ensures forall h :: Rank(kept, |p|, pc) <= h < (if end < |kept| then end else |q|) ==> !IsOperation(q[h])
  {
    hide SameOperation, Below, IsOperation;
    forall h | Rank(kept, |p|, pc) <= h < (if end < |kept| then end else |q|) ensures !IsOperation(q[h]) {
      if h < |kept| {
        BelowIsPrefix(kept, |p|, pc, h);
        assert end < |kept| ==> kept[h] < kept[end];
        assert pc <= kept[h];
      }
    }
  }

  /** One step of the source is one step of the generated program. */
  lemma StepMoves<S>(p: seq<LineKind>, q: seq<LineKind>, kept: seq<nat>, e: Engine<S>, c: Config<S>)
    requires Relinked(p, q, kept)
    ensures Step(q, e, Moved(kept, |p|, c)) == Moved(kept, |p|, Step(p, e, c))
  {
    var g := NextOperationMoves(p, q, kept, c.pc);
    if c.running && NextOperation(p, c.pc).Some? {
      assert SameOperation(p, q, kept, g);
      PerformMoves(p, q, kept, e, g, c);
    }
  }

  lemma PerformMoves<S>(p: seq<LineKind>, q: seq<LineKind>, kept: seq<nat>, e: Engine<S>, g: nat, c: Config<S>)
    requires Increasing(kept, |p|) && g < |kept| <= |q| && SameOperation(p, q, kept, g)
    ensures Perform(q, e, g, q[g], Moved(kept, |p|, c)) == Moved(kept, |p|, Perform(p, e, kept[g], p[kept[g]], c))
  {
    if !IsBranch(Lower(p[kept[g]].mnemonic)) {
      ExecuteMoves(p, q, kept, e, g, c);
    } else {
      RankOfKept(kept, |p|, g);
      if p[kept[g]].operands != [] { BranchMoves(p, q, kept, e, g, c); }
    }
  }

  lemma BranchMoves<S>(p: seq<LineKind>, q: seq<LineKind>, kept: seq<nat>, e: Engine<S>, g: nat, c: Config<S>)
    requires Increasing(kept, |p|) && g < |kept| <= |q| && SameOperation(p, q, kept, g)
    requires IsBranch(Lower(p[kept[g]].mnemonic)) && p[kept[g]].operands != []
    ensures Branch(q, e, g, q[g], Moved(kept, |p|, c)) == Moved(kept, |p|, Branch(p, e, kept[g], p[kept[g]], c))
  {
    hide ReadAll, NamesReturnAddress, TargetOf, Rank, SameTarget, IsBranch, Jump, DataOperands;
    RankOfKept(kept, |p|, g);
    if |kept| == |p| { NothingDeleted(kept, |p|, c.ra); }
    var a := p[kept[g]];
    var m := Lower(a.mnemonic);
    if IsJump(m) {
      JumpMoves(p, q, kept, e, g, c.state, c.ra);
    } else {
      var data := ReadAll(p, m, DataOperands(a));
      var outcome := e.condition(m, data, c.state, Named(data, c));
      if outcome.Taken? { JumpMoves(p, q, kept, e, g, outcome.state, c.ra); }
    }
  }

  lemma ExecuteMoves<S>(p: seq<LineKind>, q: seq<LineKind>, kept: seq<nat>, e: Engine<S>, g: nat, c: Config<S>)
    requires Increasing(kept, |p|) && g < |kept| <= |q| && SameOperation(p, q, kept, g)
    requires !IsBranch(Lower(p[kept[g]].mnemonic))
    ensures Execute(q, e, g, q[g], Moved(kept, |p|, c)) == Moved(kept, |p|, Execute(p, e, kept[g], p[kept[g]], c))
  {
    assert !IsJump(Lower(p[kept[g]].mnemonic));
    hide ReadAll, NamesReturnAddress, TargetOf, Rank, SameTarget, IsBranch;
    RankOfKept(kept, |p|, g);
    if |kept| == |p| {
      NothingDeleted(kept, |p|, c.ra);
      var m := Lower(p[kept[g]].mnemonic);
      var data := ReadAll(p, m, p[kept[g]].operands);
      NothingDeleted(kept, |p|, e.execute(m, data, c.state, Named(data, c), Shown(m, data, g)).1);
    }
  }

  lemma JumpMoves<S>(p: seq<LineKind>, q: seq<LineKind>, kept: seq<nat>, e: Engine<S>, g: nat, s: S, ra: nat)
    requires Increasing(kept, |p|) && g < |kept| <= |q| && SameOperation(p, q, kept, g)
    requires IsBranch(Lower(p[kept[g]].mnemonic)) && p[kept[g]].operands != []
    ensures Jump(q, e, g, q[g], s, Rank(kept, |p|, ra)) == Moved(kept, |p|, Jump(p, e, kept[g], p[kept[g]], s, ra))
  {
    hide ReadAll, NamesReturnAddress, TargetOf, Rank, IsBranch, MayReadLine, DataOperands, IsJump, IsRelative, Links,
        Lower, SameData;
    RankOfKept(kept, |p|, g);
    if |kept| == |p| {
      forall t ensures Rank(kept, |p|, t) == t { NothingDeleted(kept, |p|, t); }
      assert kept[g] == g by { NothingDeleted(kept, |p|, 0); }
    }
  }

  /** Lockstep: after every number of steps, from every configuration, with every engine. */
  lemma {:induction false} RunMoves<S>(p: seq<LineKind>, q: seq<LineKind>, kept: seq<nat>, e: Engine<S>, c: Config<S>,
                          n: nat)
    requires Relinked(p, q, kept)
    ensures Run(q, e, Moved(kept, |p|, c), n) == Moved(kept, |p|, Run(p, e, c, n))
    decreases n
  {
    if n > 0 {
      StepMoves(p, q, kept, e, c);
      RunMoves(p, q, kept, e, Step(p, e, c), n - 1);
    }
  }
}
