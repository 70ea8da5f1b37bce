/** What single steps of the machine amount to: branches, calls and returns, and code without branches. */
module Stepping {
  import opened Prelude
  import opened Text
  import opened Literals
  import opened Registers
  import opened Machine

  // ----- branches -----

  lemma NextIsHere(p: seq<LineKind>, i: nat)
    requires i < |p| && IsOperation(p[i])
    ensures NextOperation(p, i) == Some(i)
  {}

  /** A jump with a fixed target goes there; one before the program stops the machine behind the jump. */
  lemma JumpGoes<S>(p: seq<LineKind>, e: Engine<S>, i: nat, m: string, token: string, d: int, s: S, ra: nat)
    requires i < |p| && p[i] == Instruction(m, [token]) && IsOperation(p[i]) && Lower(m) == m && IsJump(m)
    requires TargetOf(p, i, m, token) == Fixed(d)
    ensures var linked := if m == "jal" then i + 1 else ra;
      Step(p, e, Config(i, ra, s, true)) == if d >= 0 then Config(d, linked, s, true)
      else Config(i + 1, linked, s, false)
  {
    NextIsHere(p, i);
    JumpsBranch(m);
    hide TargetOf, IsRelative, IsOperation, IsBranch, IsJump, Links, NextOperation;
  }

  lemma JumpsBranch(m: string)
    requires IsJump(m)
    ensures IsBranch(m) && (Links(m) <==> m == "jal")
  {
    assert "jal"[|"jal"| - 2..] == "al" && "jr"[|"jr"| - 2..] == "jr";
  }

  /** Literal targets count from the start, or from the branch itself if it is relative. */
  lemma LiteralTarget(p: seq<LineKind>, i: nat, m: string, token: string, v: int)
    requires ReadQuantity(p, token) == Word(token) && ParseInteger(token) == Some(v)
    ensures TargetOf(p, i, m, token) == Fixed(if m == "jr" || StartsWith(m, "br") then i + v else v)
  {
    hide ReadQuantity, ParseInteger;
  }

  /** A conditional branch goes on with the next line if it is not taken, and stops if its condition cannot be read. */
  lemma NotTakenGoesOn<S>(p: seq<LineKind>, e: Engine<S>, i: nat, c: Config<S>, m: string)
    requires i < |p| && IsOperation(p[i]) && p[i].Instruction? && Lower(p[i].mnemonic) == m && p[i].operands != []
    requires IsBranch(m) && !IsJump(m) && c.pc == i && c.running
    ensures var data := ReadAll(p, m, p[i].operands[..|p[i].operands| - 1]);
      match e.condition(m, data, c.state, Named(data, c))
      case NotTaken(s) => Step(p, e, c) == Config(i + 1, c.ra, s, true)
      case Fault(s) => Step(p, e, c) == Config(i + 1, c.ra, s, false)
      case Taken(s) => Step(p, e, c) == Jump(p, e, i, p[i], s, c.ra)
  {
    NextIsHere(p, i);
    hide ReadAll, IsOperation, IsBranch, IsJump, NextOperation, NamesReturnAddress, Jump, Lower;
  }

  // ----- calls -----

  /** The engine reads the return address where it is named. */
  ghost predicate ReadsReturnAddress<S(!new)>(e: Engine<S>) {
    forall s, ra: nat :: e.compute(Name("ra"), s, ra) == Some(ra)
  }

  lemma RaIsRegister()
    ensures DirectRegister("ra") == Some(RETURN_ADDRESS)
  {}

  lemma ReturnReads(p: seq<LineKind>, k: nat)
    requires Binding(p, "alias", "ra") == None
    ensures TargetOf(p, k, "j", "ra") == Computed(Name("ra")) && !IsRelative("j")
  {
    RaIsRegister();
    hide Binding, DirectRegister, IsIndirect, Resolve, ParseInteger;
    assert Follow(p, "alias", "ra", HOPS) == "ra";
  }

  /** `jal` to a line that says `j ra` comes back to the line after the call, and the call is remembered there. */
  lemma CallReturns<S(!new)>(p: seq<LineKind>, e: Engine<S>, i: nat, token: string, k: nat, s: S, ra: nat)
    requires i < |p| && p[i] == Instruction("jal", [token]) && TargetOf(p, i, "jal", token) == Fixed(k)
    requires k < |p| && p[k] == Instruction("j", ["ra"]) && Binding(p, "alias", "ra") == None
    requires ReadsReturnAddress(e)
    ensures Run(p, e, Config(i, ra, s, true), 2) == Config(i + 1, i + 1, s, true)
  {
    assert Lower("jal") == "jal" && Lower("j") == "j" && IsOperation(p[i]) && IsOperation(p[k]);
    var c := Config(i, ra, s, true);
    JumpGoes(p, e, i, "jal", token, k, s, ra);
    ReturnGoes(p, e, k, Config(k, i + 1, s, true));
    TwoSteps(p, e, c);
  }

  lemma ReturnGoes<S(!new)>(p: seq<LineKind>, e: Engine<S>, k: nat, c: Config<S>)
    requires k < |p| && p[k] == Instruction("j", ["ra"]) && IsOperation(p[k]) && Binding(p, "alias", "ra") == None
    requires ReadsReturnAddress(e) && c.pc == k && c.running && Lower("j") == "j"
    ensures Step(p, e, c) == Config(c.ra, c.ra, c.state, true)
  {
    NextIsHere(p, k);
    JumpsBranch("j");
    ReturnReads(p, k);
    hide TargetOf, IsRelative, IsOperation, IsBranch, Links, NextOperation, Lower;
  }

  lemma TwoSteps<S>(p: seq<LineKind>, e: Engine<S>, c: Config<S>)
    ensures Run(p, e, c, 2) == Step(p, e, Step(p, e, c))
  {
    hide Step;
    assert Run(p, e, Step(p, e, c), 1) == Run(p, e, Step(p, e, Step(p, e, c)), 0);
  }

  // ----- straight lines -----

  /** An operation that does not branch is executed once, and the next line follows. */
  lemma ExecutesOnce<S>(p: seq<LineKind>, e: Engine<S>, i: nat, c: Config<S>, m: string)
    requires i < |p| && IsOperation(p[i]) && p[i].Instruction? && Lower(p[i].mnemonic) == m && !IsBranch(m)
    requires c.pc <= i && c.running && forall j :: c.pc <= j < i ==> !IsOperation(p[j])
    ensures var data := ReadAll(p, m, p[i].operands);
      var (outcome, ra) := e.execute(m, data, c.state, Named(data, c), Shown(m, data, i));
      var after := Step(p, e, c);
      && after.pc == i + 1 && after.state == outcome.state && (after.running <==> outcome.Continue?)
      && after.ra == if NamesReturnAddress(data) then ra else c.ra
  {
    assert NextOperation(p, c.pc) == Some(i);
    hide ReadAll, IsOperation, IsBranch, NextOperation, NamesReturnAddress, MayReadLine, Lower;
  }
}
