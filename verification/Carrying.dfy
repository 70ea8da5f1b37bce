/**
 What a build guarantees by itself, and what it needs of its input. `Carried`
 is the structural relation every accepted build establishes; `LineBlind` is
 the condition on the source alone under which that is enough for lockstep, and
 without which a single step tells the two programs apart.
 */
module Carrying {
  import opened Prelude
  import opened Text
  import opened Literals
  import opened Symbols
  import opened Machine
  import opened Relinking

  predicate IsLabelSymbol(table: Table, token: string) { token in table && table[token].kind == LabelName }

  /** Branch operands the compiler leaves alone. */
  predicate Untouched(p: seq<LineKind>, m: string, token: string) {
    m in UNTRANSLATED || (!IsRelative(m) && IsLabelSymbol(Collect(p), token))
  }

  // ----- the relation -----

  function MovedOperand(kept: seq<nat>, n: nat, o: Operand): Operand {
    match o
    case Line(t) => Line(Rank(kept, n, t))
    case Indirect(register, otherwise) => Indirect(register, MovedOperand(kept, n, otherwise))
    case Port(base, connection) => Port(MovedOperand(kept, n, base), connection)
    case _ => o
  }

  function MovedOperands(kept: seq<nat>, n: nat, os: seq<Operand>): (r: seq<Operand>)
    ensures |r| == |os|
  {
    seq(|os|, i requires 0 <= i < |os| => MovedOperand(kept, n, os[i]))
  }

  ghost predicate CarriedTarget(p: seq<LineKind>, q: seq<LineKind>, kept: seq<nat>, g: nat, m: string, source: string,
                          generated: string)
    requires g < |kept|
  {
    if Untouched(p, m, source) && !ReadQuantity(p, source).Line? then
      ReadQuantity(q, generated) == MovedOperand(kept, |p|, ReadQuantity(p, source))
    else
      SameTarget(kept, |p|, TargetOf(p, kept[g], m, source), TargetOf(q, g, m, generated))
  }

  ghost predicate CarriedOperation(p: seq<LineKind>, q: seq<LineKind>, kept: seq<nat>, g: nat)
    requires g < |kept| && kept[g] < |p| && g < |q|
  {
    var a, b := p[kept[g]], q[g];
    && a.Instruction? && b.Instruction?
    && Lower(a.mnemonic) == Lower(b.mnemonic) && |a.operands| == |b.operands|
    && (!IsJump(Lower(a.mnemonic)) ==>
          ReadAll(q, Lower(b.mnemonic), DataOperands(b)) ==
            MovedOperands(kept, |p|, ReadAll(p, Lower(a.mnemonic), DataOperands(a))))
    && (IsBranch(Lower(a.mnemonic)) && a.operands != [] ==>
          CarriedTarget(p, q, kept, g, Lower(a.mnemonic), a.operands[|a.operands| - 1], b.operands[|b.operands| - 1]))
  }

  /** `q` is what the compiler makes of `p` when exactly the lines in `kept` survive. */
  ghost predicate Carried(p: seq<LineKind>, q: seq<LineKind>, kept: seq<nat>) {
    && Increasing(kept, |p|) && |kept| == |q|
    && (forall i :: 0 <= i < |p| && IsOperation(p[i]) ==> i in kept)
    && (forall g :: 0 <= g < |kept| ==> (IsOperation(p[kept[g]]) <==> IsOperation(q[g])))
    && (forall g :: 0 <= g < |kept| && IsOperation(q[g]) ==> CarriedOperation(p, q, kept, g))
  }

  // ----- the condition on the source -----

  /** Line `t` stays in place, or lies before the program. */
  predicate Stays(kept: seq<nat>, n: nat, t: int) { t < 0 || Rank(kept, n, t) == t }

  /** No operand may be the return address or is, or may fall back on, the number of a moving line. */
  predicate BlindData(kept: seq<nat>, n: nat, data: seq<Operand>) {
    !NamesReturnAddress(data) && MovedOperands(kept, n, data) == data
  }

  predicate BlindTarget(p: seq<LineKind>, kept: seq<nat>, m: string, token: string) {
    var target := ReadQuantity(p, token);
    Untouched(p, m, token) && !target.Line? ==>
      target.Word? && match ParseInteger(target.text) case None => false case Some(v) => Stays(kept, |p|, v)
  }

  predicate BlindOperation(p: seq<LineKind>, kept: seq<nat>, i: nat)
    requires i < |p| && p[i].Instruction?
  {
    var k := p[i];
    var m := Lower(k.mnemonic);
    var data := ReadAll(p, m, DataOperands(k));
    && (!IsJump(m) ==> BlindData(kept, |p|, data))
    && (MayReadLine(m, data) ==> Stays(kept, |p|, i))
    && (IsBranch(m) && k.operands != [] ==> BlindTarget(p, kept, m, k.operands[|k.operands| - 1]))
  }

  /**
   No line is deleted, or no operation reads the return address or a moving line number as data, loads the number of
   its own line while that moves, or branches untouched to one.
   */
  predicate LineBlind(p: seq<LineKind>, kept: seq<nat>) {
    |kept| == |p| || forall i :: 0 <= i < |p| && IsOperation(p[i]) ==> BlindOperation(p, kept, i)
  }

  // ----- enough -----

  lemma BlindIsRelinked(p: seq<LineKind>, q: seq<LineKind>, kept: seq<nat>)
    requires Carried(p, q, kept) && LineBlind(p, kept)
    ensures Relinked(p, q, kept)
  {
    hide CarriedOperation, SameOperation, BlindOperation;
    forall g | 0 <= g < |kept| && IsOperation(q[g]) ensures SameOperation(p, q, kept, g) {
      BlindOperationIsSame(p, q, kept, g);
    }
  }

  lemma BlindOperationIsSame(p: seq<LineKind>, q: seq<LineKind>, kept: seq<nat>, g: nat)
    requires Increasing(kept, |p|) && g < |kept| == |q| && p[kept[g]].Instruction? && CarriedOperation(p, q, kept, g)
    requires |kept| == |p| || BlindOperation(p, kept, kept[g])
    ensures SameOperation(p, q, kept, g)
  {
    hide ReadAll, DataOperands, CarriedTarget, SameTarget, BlindTarget, BlindData, IsJump, IsBranch, MovedOperands,
        NamesReturnAddress, MayReadLine, Rank;
    var a, b := p[kept[g]], q[g];
    var m := Lower(a.mnemonic);
    RankOfKept(kept, |p|, g);
    if |kept| == |p| { NothingDeleted(kept, |p|, g); }
    if !IsJump(m) { BlindDataIsSame(p, kept, ReadAll(p, m, DataOperands(a))); }
    if IsBranch(m) && a.operands != [] {
      BlindTargetIsSame(p, q, kept, g, m, a.operands[|a.operands| - 1], b.operands[|b.operands| - 1]);
    }
  }

  lemma BlindDataIsSame(p: seq<LineKind>, kept: seq<nat>, data: seq<Operand>)
    requires Increasing(kept, |p|) && (|kept| == |p| || BlindData(kept, |p|, data))
    ensures MovedOperands(kept, |p|, data) == data
    ensures |kept| == |p| || !NamesReturnAddress(data)
  {
    if |kept| == |p| {
      forall i | 0 <= i < |data|
        ensures MovedOperand(kept, |p|, data[i]) == data[i]
      {
        NothingMovesOperand(kept, |p|, data[i]);
      }
    }
  }

  lemma {:induction false} NothingMovesOperand(kept: seq<nat>, n: nat, o: Operand)
    requires Increasing(kept, n) && |kept| == n
    ensures MovedOperand(kept, n, o) == o
  {
    match o
    case Line(t) => NothingDeleted(kept, n, t);
    case Indirect(_, otherwise) => NothingMovesOperand(kept, n, otherwise);
    case Port(base, _) => NothingMovesOperand(kept, n, base);
    case _ =>
  }

  lemma BlindTargetIsSame(p: seq<LineKind>, q: seq<LineKind>, kept: seq<nat>, g: nat, m: string, source: string,
                          generated: string)
    requires Increasing(kept, |p|) && g < |kept| && CarriedTarget(p, q, kept, g, m, source, generated)
    requires |kept| == |p| || BlindTarget(p, kept, m, source)
    ensures SameTarget(kept, |p|, TargetOf(p, kept[g], m, source), TargetOf(q, g, m, generated))
  {
    hide ReadQuantity, Rank, IsLabelSymbol;
    if Untouched(p, m, source) && !ReadQuantity(p, source).Line? {
      if m in UNTRANSLATED { UntranslatedIsAbsolute(m); }
      if |kept| == |p| {
        forall t: nat ensures Rank(kept, |p|, t) == t && (t < |p| ==> kept[t] == t) { NothingDeleted(kept, |p|, t); }
        NothingMovesOperand(kept, |p|, ReadQuantity(p, source));
      }
    }
  }

  /** Every accepted build of a line-blind program runs in lockstep with it. */
  lemma BlindRunMoves<S>(p: seq<LineKind>, q: seq<LineKind>, kept: seq<nat>, e: Engine<S>, c: Config<S>, n: nat)
    requires Carried(p, q, kept) && LineBlind(p, kept)
    ensures Run(q, e, Moved(kept, |p|, c), n) == Moved(kept, |p|, Run(p, e, c, n))
  {
    BlindIsRelinked(p, q, kept);
    RunMoves(p, q, kept, e, c, n);
  }

  // ----- needed -----

  /**
   What the probing engine has seen: the operands of the last instruction, the return address and line it was given.
   */
  datatype Seen = Seen(data: seq<Operand>, ra: Option<nat>, line: Option<nat>)

  /** An engine that records its operands, takes every branch, and computes every target as line `v`. */
  function Probe(v: nat): Engine<Seen> {
    Engine((m, data, s, ra, line) => (Continue(Seen(data, ra, line)), 0),
           (m, data, s, ra) => Taken(Seen(data, ra, None)),
           (w, s, ra) => Some(v))
  }

  /** The end of the program moves as soon as one line is deleted. */
  lemma EndMoves(kept: seq<nat>, n: nat)
    requires Increasing(kept, n) && |kept| != n
    ensures Rank(kept, n, n) < n
  {
    if |kept| > n { KeptAtLeastIndex(kept, n, n); }
  }

  /** One step of the engine that computes every target as line `v` differs. */
  ghost predicate DivergesFor(p: seq<LineKind>, q: seq<LineKind>, kept: seq<nat>, v: nat, c: Config<Seen>) {
    Step(q, Probe(v), Moved(kept, |p|, c)) != Moved(kept, |p|, Step(p, Probe(v), c))
  }

  ghost predicate Diverges(p: seq<LineKind>, q: seq<LineKind>, kept: seq<nat>, c: Config<Seen>) {
    DivergesFor(p, q, kept, |p|, c)
  }

  function StartAt(i: nat, ra: nat): Config<Seen> { Config(i, ra, Seen([], None, None), true) }

  /** Without line-blindness one step of the probing engine already differs. */
  lemma NotBlindDiverges(p: seq<LineKind>, q: seq<LineKind>, kept: seq<nat>) returns (i: nat)
    requires Carried(p, q, kept) && !LineBlind(p, kept)
    ensures Diverges(p, q, kept, StartAt(i, |p|))
  {
    hide CarriedOperation, BlindOperation, Diverges;
    i :| 0 <= i < |p| && IsOperation(p[i]) && !BlindOperation(p, kept, i);
    var g :| 0 <= g < |kept| && kept[g] == i;
    OperationDiverges(p, q, kept, g);
  }

  /** What the engine sees of line `i` of the source, and of its copy, line `g`, in the generated program. */
  predicate SeesOther(kept: seq<nat>, n: nat, m: string, data: seq<Operand>, i: nat, g: nat) {
    var moved, c := MovedOperands(kept, n, data), StartAt(i, n);
    Seen(data, Named(data, c), if IsBranch(m) then None else Shown(m, data, i))
      != Seen(moved, Named(moved, Moved(kept, n, c)), if IsBranch(m) then None else Shown(m, moved, g))
  }

  lemma DataDiverges(kept: seq<nat>, n: nat, m: string, data: seq<Operand>, i: nat)
    requires Rank(kept, n, n) != n && (BlindData(kept, n, data) ==> MayReadLine(m, data) && Rank(kept, n, i) != i)
    ensures SeesOther(kept, n, m, data, i, Rank(kept, n, i))
  {
    hide Rank, MovedOperands, NamesReturnAddress, MayReadLine;
    if MovedOperands(kept, n, data) == data && !NamesReturnAddress(data) { OnlyLoadsReadLines(m, data); }
  }

  lemma OnlyLoadsReadLines(m: string, data: seq<Operand>)
    requires MayReadLine(m, data)
    ensures !IsBranch(m)
  {
    assert m[0] == 'l' && m[..1] == "l";
  }

  lemma UntranslatedIsAbsolute(m: string)
    requires m in UNTRANSLATED
    ensures !IsRelative(m) && !IsJump(m) && IsBranch(m)
  {
    assert UNTRANSLATED == {"bdse", "bdns", "bdnvl", "bdnvs"};
    assert m[1] == 'd' && m[..1] == "b" && "br"[1] == 'r' && m[..2][1] == 'd' && "jr"[0] == 'j';
  }

  lemma TargetDiverges(p: seq<LineKind>, q: seq<LineKind>, kept: seq<nat>, g: nat, s: Seen, t: Seen, ra: nat, rb: nat)
    requires Increasing(kept, |p|) && g < |kept| == |q| && |kept| != |p|
    requires p[kept[g]].Instruction? && CarriedOperation(p, q, kept, g)
    requires IsBranch(Lower(p[kept[g]].mnemonic)) && p[kept[g]].operands != []
    requires !BlindTarget(p, kept, Lower(p[kept[g]].mnemonic), p[kept[g]].operands[|p[kept[g]].operands| - 1])
    ensures Jump(q, Probe(|p|), g, q[g], t, rb).pc != Rank(kept, |p|,
        Jump(p, Probe(|p|), kept[g], p[kept[g]], s, ra).pc)
  {
    hide Rank, ReadQuantity, IsRelative, ReadAll, DataOperands, IsLabelSymbol;
    EndMoves(kept, |p|);
    var m := Lower(p[kept[g]].mnemonic);
    if m in UNTRANSLATED { UntranslatedIsAbsolute(m); }
  }

  lemma OperationDiverges(p: seq<LineKind>, q: seq<LineKind>, kept: seq<nat>, g: nat)
    requires Increasing(kept, |p|) && g < |kept| == |q| && |kept| != |p|
    requires IsOperation(p[kept[g]]) && IsOperation(q[g]) && CarriedOperation(p, q, kept, g)
    requires !BlindOperation(p, kept, kept[g])
    ensures Diverges(p, q, kept, StartAt(kept[g], |p|))
  {
    var i, a, c := kept[g], p[kept[g]], StartAt(kept[g], |p|);
    RankOfKept(kept, |p|, g);
    EndMoves(kept, |p|);
    var m := Lower(a.mnemonic);
    var data := ReadAll(p, m, DataOperands(a));
    if MayReadLine(m, data) { OnlyLoadsReadLines(m, data); }
    if !IsJump(m) && (!BlindData(kept, |p|, data) || (MayReadLine(m, data) && !Stays(kept, |p|, i))) {
      DataDiverges(kept, |p|, m, data, i);
      DataStepDiverges(p, q, kept, g, data);
    } else {
      TargetStepDiverges(p, q, kept, g);
    }
  }

  lemma DataStepDiverges(p: seq<LineKind>, q: seq<LineKind>, kept: seq<nat>, g: nat, data: seq<Operand>)
    requires Increasing(kept, |p|) && g < |kept| == |q| && Rank(kept, |p|, kept[g]) == g
    requires IsOperation(p[kept[g]]) && IsOperation(q[g]) && CarriedOperation(p, q, kept, g)
    requires !IsJump(Lower(p[kept[g]].mnemonic))
    requires data == ReadAll(p, Lower(p[kept[g]].mnemonic), DataOperands(p[kept[g]]))
    requires SeesOther(kept, |p|, Lower(p[kept[g]].mnemonic), data, kept[g], g) && data != []
    ensures Diverges(p, q, kept, StartAt(kept[g], |p|))
  {
    assert p[kept[g]].operands == [] ==> data == [];
    hide Rank, ReadAll, MovedOperands, Destination, IsJump, NamesReturnAddress, CarriedTarget, MayReadLine;
    var a, c, e := p[kept[g]], StartAt(kept[g], |p|), Probe(|p|);
    var moved := MovedOperands(kept, |p|, data);
    var m := Lower(a.mnemonic);
    assert Step(p, e, c).state == Seen(data, Named(data, c), if IsBranch(m) then None else Shown(m, data, kept[g]));
    assert Step(q, e, Moved(kept, |p|, c)).state
        == Seen(moved, Named(moved, Moved(kept, |p|, c)), if IsBranch(m) then None else Shown(m, moved, g));
  }

  lemma TargetStepDiverges(p: seq<LineKind>, q: seq<LineKind>, kept: seq<nat>, g: nat)
    requires Increasing(kept, |p|) && g < |kept| == |q| && |kept| != |p| && Rank(kept, |p|, kept[g]) == g
    requires IsOperation(p[kept[g]]) && IsOperation(q[g]) && CarriedOperation(p, q, kept, g)
    requires IsBranch(Lower(p[kept[g]].mnemonic)) && p[kept[g]].operands != []
    requires !BlindTarget(p, kept, Lower(p[kept[g]].mnemonic), p[kept[g]].operands[|p[kept[g]].operands| - 1])
    ensures Diverges(p, q, kept, StartAt(kept[g], |p|))
  {
    hide Rank, ReadAll, Jump, IsJump, NamesReturnAddress, CarriedTarget, BlindTarget, DataOperands, MovedOperands,
        TargetOf;
    forall s, t, ra, rb
      ensures Jump(q, Probe(|p|), g, q[g], t, rb).pc != Rank(kept, |p|,
          Jump(p, Probe(|p|), kept[g], p[kept[g]], s, ra).pc) {
      TargetDiverges(p, q, kept, g, s, t, ra, rb);
    }
  }
}
