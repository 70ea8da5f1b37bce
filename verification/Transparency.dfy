/**
 Transparency is needed: each operand and each branch target that a compact build reads otherwise, because a name was
 replaced or deleted, shows in one step. With line-blindness it is exactly the condition for lockstep.
 */
module Transparency {
  import opened Prelude
  import opened Text
  import opened Literals
  import opened Registers
  import opened Symbols
  import opened Machine
  import opened Relinking
  import opened Environment
  import opened Carrying
  import opened Words
  import opened Lines
  import opened Adjusting
  import opened Readable
  import opened Compact
  import opened NameTransfer
  import opened CompactText
  import opened CompactRuns

  // ----- numbers -----

  lemma QuantityShape(p: seq<LineKind>, t: string)
    ensures var o := ReadQuantity(p, t);
      !o.Behind? && !o.Port? && (o.Name? ==> o.name == Follow(p, "alias", t, HOPS))
  {}

  /** Where the aliases end at different names, one of them a register. */
  lemma DifferentQuantities(p: seq<LineKind>, q: seq<LineKind>, t: string, u: string)
    requires Follow(p, "alias", t, HOPS) != Follow(q, "alias", u, HOPS)
    requires IsRegister(Follow(p, "alias", t, HOPS)) || IsRegister(Follow(q, "alias", u, HOPS))
    ensures ReadQuantity(p, t) != ReadQuantity(q, u)
  {
    hide Follow, Resolve, DirectRegister, IsIndirect;
  }

  /** Where the aliases end at different names, and so do the defines, one of them at no label. */
  lemma DifferentNumbers(p: seq<LineKind>, q: seq<LineKind>, t: string, u: string)
    requires Follow(p, "alias", t, HOPS) != Follow(q, "alias", u, HOPS) && ChainEnd(p, t) != ChainEnd(q, u)
    requires Resolve(p, t).Word? || Resolve(q, u).Word?
    ensures ReadQuantity(p, t) != ReadQuantity(q, u)
  {
    hide Follow, LabelLine, DirectRegister, IsIndirect;
  }

  /** A name that nothing replaced, in the generated program. */
  lemma UnreplacedNumber(p: seq<LineKind>, q: seq<LineKind>, kept: seq<nat>, t: string)
    requires Lawful(p) && Renamed(p, q, kept)
    ensures Follow(q, "alias", t, HOPS) == EndAfter(p, t) == ChainEnd(q, t)
    ensures LabelLine(p, EndAfter(p, t)) == None || Removable(p, EndAfter(p, t)) ==>
        Resolve(q, t) == Word(EndAfter(p, t))
  {
    hide Lawful, Follow, LabelLine, EndAfter, Renames, Removable, SubstitutedButTarget;
    var z := EndAfter(p, t);
    FollowsAfter(p, q, kept, t);
    NoDefines(p, q, kept, z);
    FollowNothing(q, "define", z);
    if LabelLine(q, z).Some? { SurvivingLabel(p, q, kept, z); }
  }

  lemma SurvivingLabel(p: seq<LineKind>, q: seq<LineKind>, kept: seq<nat>, name: string)
    requires Renamed(p, q, kept) && LabelLine(q, name).Some?
    ensures LabelLine(p, name).Some? && !Removable(p, name)
  {
    hide SubstitutedButTarget, Renames, Removable;
    var g := LabelLine(q, name).value;
    RenamedBinds(Renames(p), p[kept[g]], q[g], "alias", name);
    LabelLineIsLast(p, name);
  }

  /** An inlined define or removed label that the generated program no longer knows. */
  lemma GoneNumberDiffers(p: seq<LineKind>, q: seq<LineKind>, kept: seq<nat>, t: string)
    requires Lawful(p) && Renamed(p, q, kept) && (t in Defines(Collect(p)) || Removable(p, t))
    requires DirectRegister(t).None?
    ensures ReadQuantity(q, t) != ReadQuantity(p, t)
  {
    hide Lawful, Renamed, Removable, Renames, Follow, IsIndirect, DirectRegister, Resolve, LabelLine, Collect, Defines,
        EndAfter;
    GoneIsNoAlias(p, t);
    FollowNothing(p, "alias", t);
    UnreplacedNumber(p, q, kept, t);
    GoneEnds(p, t);
  }

  lemma GoneEnds(p: seq<LineKind>, t: string)
    requires Lawful(p) && (t in Defines(Collect(p)) || Removable(p, t)) && Follow(p, "alias", t, HOPS) == t
    ensures EndAfter(p, t) == t && (LabelLine(p, t) == None || Removable(p, t)) && Resolve(p, t) != Word(t)
  {
    hide NamesAreIdentifiers, Unique, PlainMnemonics, Collect, Follow, IsShort, RawDefines;
    GoneIsNoAlias(p, t);
    DefineResolves(p, t);
    LabelIsSymbol(p, t);
    SubCases(p, t);
    if t in Defines(Collect(p)) { DefineEnds(p, t); DefinesAreRaw(p, t); }
  }

  lemma DefinesAreRaw(p: seq<LineKind>, t: string)
    requires t in Defines(Collect(p))
    ensures t in RawDefines(Collect(p)) && t in Renames(p)
  {}

  /** A name inside an operand that happens to be a generated name. */
  lemma ShortNumberDiffers(p: seq<LineKind>, q: seq<LineKind>, kept: seq<nat>, t: string)
    requires Lawful(p) && Renamed(p, q, kept) && IsShort(p, t)
    ensures ReadQuantity(q, t) != ReadQuantity(p, t)
  {
    hide Lawful, Renamed, Removable, Renames, Follow, IsIndirect, DirectRegister, LabelLine, Collect, IsShort,
        Resolve;
    UnreplacedNumber(p, q, kept, t);
    ShortStandsFor(p, t);
    var n := Shortened(p, t);
    EndTransfers(p, q, kept, n);
    SubOutsideAliases(p, Follow(p, "alias", n, HOPS));
    UndeclaredStays(p, t);
    DifferentNumbers(p, q, t, t);
  }

  lemma UndeclaredStays(p: seq<LineKind>, t: string)
    requires Lawful(p) && t !in Collect(p)
    ensures Follow(p, "alias", t, HOPS) == t == ChainEnd(p, t) && Resolve(p, t) == Word(t)
  {
    hide NamesAreIdentifiers, Unique, PlainMnemonics, Collect, Follow;
    NotAliasNotBound(p, t);
    FollowNothing(p, "alias", t);
    DefineResolves(p, t);
    LabelIsSymbol(p, t);
  }

  /** A name inside an operand that is a private alias. */
  lemma PrivateNumberDiffers(p: seq<LineKind>, q: seq<LineKind>, kept: seq<nat>, t: string)
    requires Lawful(p) && Renamed(p, q, kept) && IsAliasSymbol(p, t) && IsPrivate(Collect(p), t)
    ensures ReadQuantity(q, t) != ReadQuantity(p, t)
  {
    hide Renamed, Removable, Renames, Follow, IsIndirect, DirectRegister, LabelLine, Collect, IsShort, Resolve,
        NamesAreIdentifiers, Unique, PlainMnemonics, RenamingOf, Defines, Acyclic;
    UnreplacedNumber(p, q, kept, t);
    SubCases(p, t);
    AliasKept(p, t);
    BindingIsSymbol(p, "alias", t);
    BindingIsSymbol(p, "define", t);
    LabelIsSymbol(p, t);
    DefineResolves(p, Follow(p, "alias", t, HOPS));
    DifferentNumbers(p, q, t, t);
  }

  /** A private alias is no generated name, and leads nowhere once it is renamed. */
  lemma AliasKept(p: seq<LineKind>, t: string)
    requires Lawful(p) && IsAliasSymbol(p, t) && IsPrivate(Collect(p), t)
    ensures EndAfter(p, t) == t
  {
    hide NamesAreIdentifiers, Unique, PlainMnemonics, Collect, IsShort, Follow, Acyclic, ShortNamesUnused;
    if IsShort(p, t) { ShortStandsFor(p, t); }
    SubCases(p, t);
  }

  /** A number before a colon that does not read plainly reads otherwise. */
  lemma PartDiffers(p: seq<LineKind>, q: seq<LineKind>, kept: seq<nat>, t: string)
    requires Lawful(p) && Renamed(p, q, kept) && !PlainPart(p, t)
    ensures ReadQuantity(q, t) != ReadQuantity(p, t)
  {
    hide Lawful, Renamed, Removable, Renames, Follow, IsIndirect, DirectRegister, LabelLine, Collect, IsShort,
        Resolve, IsRegister, Defines, ReadQuantity;
    if t in Defines(Collect(p)) || Removable(p, t) {
      GoneNumberDiffers(p, q, kept, t);
    } else if IsShort(p, t) {
      ShortNumberDiffers(p, q, kept, t);
    } else if Sub(Renames(p), t) != t {
      SubCases(p, t);
      RenamedIsAliasOrDefine(p, t);
      PrivateNumberDiffers(p, q, kept, t);
    } else {
      EndTransfers(p, q, kept, t);
      DifferentQuantities(p, q, t, t);
    }
  }

  // ----- devices -----

  lemma PinDiffers(p: seq<LineKind>, q: seq<LineKind>, kept: seq<nat>, name: string)
    requires Lawful(p) && Renamed(p, q, kept) && !PlainPin(p, name)
    ensures ReadPin(q, name) != ReadPin(p, name)
  {
    hide Lawful, Renamed, Follow, EndAfter, PlainPart, ReadQuantity, IsPin;
    if StartsWith(name, "d") { FollowsAfter(p, q, kept, name[1..]); } else { PartDiffers(p, q, kept, name); }
  }

  /** A define in place of a device, unless it and its value are both registers behind a `d`. */
  lemma DifferentDevices(p: seq<LineKind>, q: seq<LineKind>, name: string, value: string)
    requires name != value && (Reserved(Device, name) || Reserved(Device, value))
    requires Follow(p, "alias", name, HOPS) == name && Follow(q, "alias", value, HOPS) == value
    requires ':' !in name && !(IsBehind(name) && IsBehind(value))
    ensures ReadDevice(p, name) != ReadDevice(q, value)
  {
    PinsStartWithD(name);
    PinsStartWithD(value);
    hide Follow, Resolve, DirectRegister, IsIndirect, IsPin, ReadQuantity;
    if !StartsWith(name, "d") && !StartsWith(value, "d") && ':' !in value {
      DifferentQuantities(p, q, name, value);
    } else {
      QuantityShape(p, name);
      QuantityShape(q, value);
    }
  }

  lemma DeviceDiffers(p: seq<LineKind>, q: seq<LineKind>, kept: seq<nat>, t: string)
    requires Lawful(p) && Renamed(p, q, kept) && !IsShort(p, t) && !Removable(p, t) && !PlainDevice(p, t)
    ensures Read(q, Device, Sub(Renames(p), t)) != Read(p, Device, t)
  {
    hide Lawful, Renamed, IsShort, Removable, Renames, Follow, ReadQuantity, Rank, IsIndirect, DirectRegister, PlainPin,
        EndAfter, IsPin, Reserved;
    EndTransfers(p, q, kept, t);
    var name, value := Follow(p, "alias", t, HOPS), ChainEnd(p, t);
    if value != name { InlinedIsWord(p, name); }
    if ':' in name {
      PinDiffers(p, q, kept, DevicePart(name));
    } else if IsBehind(name) && IsBehind(value) {
      FollowsAfter(p, q, kept, value[1..]);
    } else {
      ValueStays(p, q, kept, t);
      DifferentDevices(p, q, name, value);
    }
  }

  /** The generated program follows no alias from where a chain ended. */
  lemma ValueStays(p: seq<LineKind>, q: seq<LineKind>, kept: seq<nat>, t: string)
    requires Lawful(p) && Renamed(p, q, kept) && !IsShort(p, t)
    ensures Follow(q, "alias", ChainEnd(p, t), HOPS) == ChainEnd(p, t)
  {
    hide Lawful, Renamed, IsShort, Removable, Renames, Follow;
    EndTransfers(p, q, kept, t);
    EndTransfers(p, q, kept, Follow(p, "alias", t, HOPS));
  }

  /** An operand that does not read plainly reads otherwise in the generated program. */
  lemma ReadDiffers(p: seq<LineKind>, q: seq<LineKind>, kept: seq<nat>, role: Role, t: string)
    requires Lawful(p) && Renamed(p, q, kept) && !IsShort(p, t) && !Removable(p, t) && !ReadsPlainly(p, role, t)
    ensures Read(q, role, Sub(Renames(p), t)) != Read(p, role, t)
  {
    hide Lawful, Renamed, IsShort, Removable, Renames, Follow, ReadQuantity, Resolve, ReadDevice, IsRegister,
        PlainDevice;
    var name, value := Follow(p, "alias", t, HOPS), ChainEnd(p, t);
    EndTransfers(p, q, kept, t);
    ValueStays(p, q, kept, t);
    QuantityShape(p, name);
    QuantityShape(q, value);
    match role
    case Quantity => DifferentQuantities(p, q, t, Sub(Renames(p), t));
    case Device => DeviceDiffers(p, q, kept, t);
    case Logic =>
      if IsRegister(name) || IsRegister(value) { DifferentQuantities(p, q, name, value); }
    case Mode =>
  }

  // ----- one step -----

  lemma DataDiffers(p: seq<LineKind>, q: seq<LineKind>, kept: seq<nat>, g: nat, data: seq<Operand>, moved: seq<Operand>)
    requires Increasing(kept, |p|) && g < |kept| == |q| && IsOperation(p[kept[g]]) && IsOperation(q[g])
    requires q[g].mnemonic == p[kept[g]].mnemonic && |q[g].operands| == |p[kept[g]].operands|
    requires !IsJump(Lower(p[kept[g]].mnemonic)) && (p[kept[g]].operands == [] ==> data == moved)
    requires data == ReadAll(p, Lower(q[g].mnemonic), DataOperands(p[kept[g]]))
    requires moved == ReadAll(q, Lower(q[g].mnemonic), DataOperands(q[g]))
    requires data != moved
    ensures Diverges(p, q, kept, StartAt(kept[g], |p|))
  {
    RankOfKept(kept, |p|, g);
    hide Rank, ReadAll, Destination, IsJump, NamesReturnAddress, MayReadLine;
    var c, e, m := StartAt(kept[g], |p|), Probe(|p|), Lower(q[g].mnemonic);
    assert Step(p, e, c).state == Seen(data, Named(data, c), if IsBranch(m) then None else Shown(m, data, kept[g]));
    assert Step(q, e, Moved(kept, |p|, c)).state
        == Seen(moved, Named(moved, Moved(kept, |p|, c)), if IsBranch(m) then None else Shown(m, moved, g));
  }

  /** The line a branch at line `i` goes to when every computed target is `v`. */
  function LineOf(target: Target, m: string, i: nat, v: nat): int {
    match target case Fixed(d) => d case Computed(_) => (if IsRelative(m) then i else 0) + v
  }

  lemma ProbeJumps(p: seq<LineKind>, i: nat, v: nat, c: Config<Seen>)
    requires i < |p| && IsOperation(p[i]) && IsBranch(Lower(p[i].mnemonic)) && p[i].operands != []
    requires c.pc == i && c.running
    ensures var m := Lower(p[i].mnemonic);
      var d := LineOf(TargetOf(p, i, m, p[i].operands[|p[i].operands| - 1]), m, i, v);
      var after := Step(p, Probe(v), c);
      if d < 0 then !after.running else after.running && after.pc == d
  {
    hide ReadAll, IsJump, NamesReturnAddress, DataOperands, TargetOf, IsRelative, IsBranch;
    var e, k, m := Probe(v), p[i], Lower(p[i].mnemonic);
    var d := LineOf(TargetOf(p, i, m, k.operands[|k.operands| - 1]), m, i, v);
    forall s, ra ensures var after := Jump(p, e, i, k, s, ra); if d < 0 then !after.running
        else after.running && after.pc == d {}
    assert Step(p, e, c) == Branch(p, e, i, k, c);
  }

  /** The destinations of a branch and of its generated copy do not match. */
  predicate Misses(kept: seq<nat>, n: nat, d: int, d': int) {
    if d < 0 then d' >= 0 else d' != Rank(kept, n, d)
  }

  /** One of the targets is computed, and the copy of a relative one is fixed. */
  predicate TellsApart(n: nat, m: string, target: Target, copy: Target) {
    (target.Computed? || (copy.Computed? && 0 <= target.line < n)) && (copy.Computed? ==> !IsRelative(m))
  }

  /** Some computed value then leads a branch and its copy to lines that do not match. */
  lemma SomeValueMisses(kept: seq<nat>, n: nat, i: nat, g: nat, m: string, target: Target, copy: Target)
    returns (v: nat)
    requires Increasing(kept, n) && |kept| != n
    requires TellsApart(n, m, target, copy)
    ensures Misses(kept, n, LineOf(target, m, i, v), LineOf(copy, m, g, v))
  {
    hide IsRelative;
    EndMoves(kept, n);
    v := n;
    var d := LineOf(target, m, i, v);
    if target.Fixed? {
      KeptFits(kept, n);
    } else if copy.Fixed? && copy.line == Rank(kept, n, d) {
      BelowEnd(kept, n, d);
      BelowEnd(kept, n, d + 1);
      v := n + 1;
    }
  }

  lemma KeptFits(kept: seq<nat>, n: nat)
    requires Increasing(kept, n)
    ensures |kept| <= n
  {
    if |kept| > n { KeptAtLeastIndex(kept, n, n); }
  }

  lemma BelowEnd(kept: seq<nat>, n: nat, t: nat)
    requires Increasing(kept, n) && t >= n
    ensures Rank(kept, n, t) == |kept| + t - n
  {
    BelowAll(kept, t);
  }

  /** One step shows that a branch and its copy go to lines that do not match. */
  lemma TargetDiffers(p: seq<LineKind>, q: seq<LineKind>, kept: seq<nat>, g: nat) returns (v: nat)
    requires Increasing(kept, |p|) && g < |kept| == |q| && |kept| != |p| && IsOperation(p[kept[g]]) && IsOperation(q[g])
    requires q[g].mnemonic == p[kept[g]].mnemonic && |q[g].operands| == |p[kept[g]].operands| > 0
    requires IsBranch(Lower(q[g].mnemonic))
    requires var m := Lower(q[g].mnemonic);
      var target := TargetOf(p, kept[g], m, p[kept[g]].operands[|q[g].operands| - 1]);
      var copy := TargetOf(q, g, m, q[g].operands[|q[g].operands| - 1]);
      TellsApart(|p|, m, target, copy)
    ensures DivergesFor(p, q, kept, v, StartAt(kept[g], |p|))
  {
    hide Rank, TargetOf, IsRelative, IsBranch, Step, IsOperation;
    OperationIsInstruction(q[g]);
    OperationIsInstruction(p[kept[g]]);
    RankOfKept(kept, |p|, g);
    var m, c := Lower(q[g].mnemonic), StartAt(kept[g], |p|);
    v := SomeValueMisses(kept, |p|, kept[g], g, m, TargetOf(p, kept[g], m, p[kept[g]].operands[|q[g].operands| - 1]),
      TargetOf(q, g, m, q[g].operands[|q[g].operands| - 1]));
    ProbeJumps(p, kept[g], v, c);
    ProbeJumps(q, g, v, Moved(kept, |p|, c));
  }

  /** The generated line of a source operation. */
  lemma OperationSurvives(raw: seq<string>, lines: seq<OutputLine>, i: nat) returns (g: nat)
    requires CompactFrom(raw, lines) && i < |raw| && IsOperation(ProgramOf(raw)[i])
    ensures g < |lines| && KeptOf(lines)[g] == i && IsOperation(KindsOf(lines)[g]) && Lawful(ProgramOf(raw))
    ensures Renamed(ProgramOf(raw), KindsOf(lines), KeptOf(lines)) && Rebuilt(lines) == KindsOf(lines)
    ensures var a, b := ProgramOf(raw)[i], KindsOf(lines)[g];
      && SubstitutedButTarget(Renames(ProgramOf(raw)), a, b) && a.Instruction? && b.Instruction?
      && b.mnemonic == a.mnemonic && |b.operands| == |a.operands|
  {
    hide CompactFrom, Dropped, ProgramOf, SubstitutedButTarget, KindOf, IsOperation, Lawful, Renames;
    CompactIsRenamed(raw, lines);
    CompactSource(raw, lines);
    CompactReads(raw, lines);
    OperationIsInstruction(ProgramOf(raw)[i]);
    if i !in KeptOf(lines) { DroppedIsNoOperation(ProgramOf(raw), ProgramOf(raw)[i]); }
    g :| 0 <= g < |lines| && KeptOf(lines)[g] == i;
    SurvivorsOperate(Renames(ProgramOf(raw)), ProgramOf(raw)[i], KindsOf(lines)[g]);
  }

  /** An operand that does not read plainly shows in one step of every compact build. */
  lemma MisreadDiverges(raw: seq<string>, lines: seq<OutputLine>, i: nat, j: nat)
    requires CompactFrom(raw, lines) && i < |raw| && IsOperation(ProgramOf(raw)[i])
    requires var a := ProgramOf(raw)[i]; a.Instruction? && !IsJump(Lower(a.mnemonic)) && j < |DataOperands(a)|
    requires var p, a := ProgramOf(raw), ProgramOf(raw)[i];
      !ReadsPlainly(p, RoleOf(Lower(a.mnemonic), j), DataOperands(a)[j])
    ensures Diverges(ProgramOf(raw), Rebuilt(lines), KeptOf(lines), StartAt(i, |raw|))
  {
    hide CompactFrom, Renamed, Renames, ProgramOf, ReadsPlainly, SubstitutedButTarget, Diverges, Lawful,
        IsOperation, KindsOf, RoleOf, IsJump, IsShort, Removable, Read, KeptOf;
    var p, q, kept := ProgramOf(raw), KindsOf(lines), KeptOf(lines);
    var g := OperationSurvives(raw, lines, i);
    CompactKept(raw, lines);
    var a, b := p[i], q[g];
    var m := Lower(a.mnemonic);
    DataIsOrdinary(p, i, j);
    DataIsSubstituted(Renames(p), a, b, j);
    ReadDiffers(p, q, kept, RoleOf(m, j), DataOperands(a)[j]);
    var data, moved := ReadAll(p, m, DataOperands(a)), ReadAll(q, m, DataOperands(b));
    assert data[j] != moved[j];
    DataDiffers(p, q, kept, g, data, moved);
  }

  // ----- targets -----

  /** A name that a compact build replaced comes with a line that it deleted. */
  lemma SomethingDeleted(p: seq<LineKind>, q: seq<LineKind>, kept: seq<nat>, name: string)
    requires Lawful(p) && Renamed(p, q, kept) && (name in Defines(Collect(p)) || Removable(p, name))
    ensures |kept| != |p|
  {
    hide NamesAreIdentifiers, Unique, PlainMnemonics, Collect, SubstitutedButTarget, Renames, RawDefines, Removable,
        Dropped, Defines;
    var i := DeclaredLineDropped(p, name);
    assert i < |kept| ==> kept[i] != i;
    if |kept| == |p| { NothingDeleted(kept, |p|, i); }
  }

  lemma DeclaredLineDropped(p: seq<LineKind>, name: string) returns (i: nat)
    requires Lawful(p) && (name in Defines(Collect(p)) || Removable(p, name))
    ensures i < |p| && Dropped(p, p[i])
  {
    hide NamesAreIdentifiers, Unique, PlainMnemonics, Collect, Defines, Acyclic;
    DefineResolves(p, name);
    BindingIsSymbol(p, "define", name);
    LabelIsSymbol(p, name);
    i := Collect(p)[name].line;
  }

  /** What becomes of a branch operand that is no removable label. */
  lemma OtherTarget(raw: seq<string>, lines: seq<OutputLine>, g: nat)
    requires CompactFrom(raw, lines) && g < |lines| && KeptOf(lines)[g] < |raw| && |lines| != |raw|
    requires var a := ProgramOf(raw)[KeptOf(lines)[g]];
      && a.Instruction? && IsBranch(Lower(a.mnemonic)) && a.operands != []
      && !Removable(ProgramOf(raw), a.operands[|a.operands| - 1])
    ensures var a, b := ProgramOf(raw)[KeptOf(lines)[g]], KindsOf(lines)[g];
      && b.Instruction? && |b.operands| == |a.operands|
      && var given, text := Sub(Renames(ProgramOf(raw)), a.operands[|a.operands| - 1]), b.operands[|b.operands| - 1];
        if ParseInteger(given).Some? then ParseInteger(text).Some? else text == given && !IsRelative(Lower(a.mnemonic))
  {
    hide CompactFrom, Renames, Dropped, Removable, Surviving, ProgramOf, LineMap, Collect, RelabelLine, Retargeted,
        LiteralAdjustment, IsBranch, Neat, IsLabelSymbol, ParseInteger, IntText, Adjustment, IsRelative;
    var p, kept := ProgramOf(raw), KeptOf(lines);
    var x, u, v := CompactThrough(raw, lines, g);
    CompactSource(raw, lines);
    AdjustedShape(x, g, v);
    assert !NamesRemoved(RemovableLabels(p), u);
    NotRelabelled(raw, g);
    LawfulMnemonic(p, kept[g]);
    AdjustmentOf(x, g, v, v.mnemonic.value, v.operands[|v.operands| - 1]);
    var target := Adjustment(x, g, v).value;
    if target.Some? { IntTextParses(target.value); }
  }

  /** The target of a misread branch is computed in the source or in its copy, and fixed in one of them if relative. */
  lemma MisreadTarget(raw: seq<string>, lines: seq<OutputLine>, i: nat) returns (g: nat)
    requires CompactFrom(raw, lines) && i < |raw| && IsOperation(ProgramOf(raw)[i])
    requires var a := ProgramOf(raw)[i];
      && a.Instruction? && IsBranch(Lower(a.mnemonic)) && a.operands != []
      && !PlainTarget(ProgramOf(raw), a.operands[|a.operands| - 1])
    ensures g < |lines| && |lines| != |raw| && KeptOf(lines)[g] == i && IsOperation(KindsOf(lines)[g])
    ensures var a, b := ProgramOf(raw)[i], KindsOf(lines)[g];
      && b.Instruction? && b.mnemonic == a.mnemonic && |b.operands| == |a.operands|
      && TellsApart(|raw|, Lower(a.mnemonic),
           TargetOf(ProgramOf(raw), i, Lower(a.mnemonic), a.operands[|a.operands| - 1]),
           TargetOf(KindsOf(lines), g, Lower(a.mnemonic), b.operands[|a.operands| - 1]))
  {
    hide CompactFrom, Renamed, Renames, ProgramOf, SubstitutedButTarget, Lawful, IsOperation, KindsOf,
        IsBranch, Removable, Rank, IntText, ParseInteger, IsAbsoluteBranch, IsRelative, KeptOf, TargetOf, KindOf,
        PlainTarget, IsRegister, Follow, ChainEnd;
    var p, q, kept := ProgramOf(raw), KindsOf(lines), KeptOf(lines);
    g := OperationSurvives(raw, lines, i);
    var a := p[i];
    var t, m := a.operands[|a.operands| - 1], Lower(a.mnemonic);
    assert t in a.operands;
    LiteralsTransfer(p, q, kept);
    if Removable(p, t) {
      SomethingDeleted(p, q, kept, t);
      var target := RemovedTarget(raw, lines, g);
      IntTextParses(target);
      RemovedTargets(p, q, kept, g, m, t, IntText(target));
    } else {
      InlinedTarget(p, t);
      SomethingDeleted(p, q, kept, Follow(p, "alias", t, HOPS));
      OtherTarget(raw, lines, g);
      OperandIsNotShort(p, t);
      InlinedTargets(p, q, kept, g, m, t, q[g].operands[|a.operands| - 1]);
    }
  }

  /** A target that turns from a register into a number or label, or back, shows in one step. */
  lemma MisreadTargetDiverges(raw: seq<string>, lines: seq<OutputLine>, i: nat) returns (v: nat)
    requires CompactFrom(raw, lines) && i < |raw| && IsOperation(ProgramOf(raw)[i])
    requires var a := ProgramOf(raw)[i];
      && a.Instruction? && IsBranch(Lower(a.mnemonic)) && a.operands != []
      && !PlainTarget(ProgramOf(raw), a.operands[|a.operands| - 1])
    ensures DivergesFor(ProgramOf(raw), Rebuilt(lines), KeptOf(lines), v, StartAt(i, |raw|))
  {
    hide CompactFrom, ProgramOf, DivergesFor, IsOperation, KindsOf, IsBranch, Rank, KeptOf, TargetOf, KindOf,
        PlainTarget, TellsApart, Rebuilt;
    var g := MisreadTarget(raw, lines, i);
    CompactKept(raw, lines);
    CompactReads(raw, lines);
    v := TargetDiffers(ProgramOf(raw), KindsOf(lines), KeptOf(lines), g);
  }

  lemma InlinedTarget(p: seq<LineKind>, t: string)
    requires Lawful(p) && !Removable(p, t) && !PlainTarget(p, t)
    ensures var name := Follow(p, "alias", t, HOPS);
      name in Defines(Collect(p)) && (IsRegister(name) || IsRegister(ChainEnd(p, t)))
  {
    hide Collect, Follow, IsRegister, Defines;
    DefineResolves(p, Follow(p, "alias", t, HOPS));
  }

  /** A removed label that the machine reads as a register: the source computes its target, its copy is a number. */
  lemma RemovedTargets(p: seq<LineKind>, q: seq<LineKind>, kept: seq<nat>, g: nat, m: string, name: string,
                       text: string)
    requires Lawful(p) && g < |kept| && Removable(p, name) && !PlainTarget(p, name)
    requires LiteralsAreWords(q) && ParseInteger(text).Some?
    ensures TargetOf(p, kept[g], m, name).Computed? && TargetOf(q, g, m, text).Fixed?
  {
    hide Collect, Unique, NamesAreIdentifiers, PlainMnemonics, Resolve, DirectRegister, IsIndirect, IsRelative,
        ParseInteger, ReadQuantity;
    GoneIsNoAlias(p, name);
    FollowNothing(p, "alias", name);
    RegisterIsComputed(p, kept[g], m, name);
  }

  lemma RegisterIsComputed(p: seq<LineKind>, i: nat, m: string, t: string)
    requires IsRegister(Follow(p, "alias", t, HOPS))
    ensures TargetOf(p, i, m, t).Computed?
  {
    hide Resolve, DirectRegister, IsIndirect, IsRelative, Follow, ParseInteger;
  }

  /** A target that is no register, and does not end at a literal, is a line or computed. */
  lemma WordIsComputed(p: seq<LineKind>, i: nat, m: string, t: string)
    requires ParseInteger(ChainEnd(p, t)).None? && !IsRelative(m)
    ensures var target := TargetOf(p, i, m, t); target.Computed? || 0 <= target.line < |p|
  {
    hide DirectRegister, IsIndirect, IsRelative, Follow, ParseInteger, LabelLine;
    var w := ChainEnd(p, t);
    if LabelLine(p, w).Some? { LabelInRange(p, w); }
  }

  lemma LabelInRange(p: seq<LineKind>, name: string)
    requires LabelLine(p, name).Some?
    ensures LabelLine(p, name).value < |p|
  {}

  /** A define over a register, or down to one, as a target. */
  lemma InlinedTargets(p: seq<LineKind>, q: seq<LineKind>, kept: seq<nat>, g: nat, m: string, t: string, text: string)
    requires Lawful(p) && Renamed(p, q, kept) && g < |kept| && LiteralsAreWords(q) && !IsShort(p, t)
    requires IsRegister(Follow(p, "alias", t, HOPS)) || IsRegister(ChainEnd(p, t))
    requires var given := Sub(Renames(p), t);
      if ParseInteger(given).Some? then ParseInteger(text).Some? else text == given && !IsRelative(m)
    ensures var target, copy := TargetOf(p, kept[g], m, t), TargetOf(q, g, m, text);
      TellsApart(|p|, m, target, copy)
  {
    hide Lawful, Renamed, Renames, Follow, IsRegister, IsRelative, ParseInteger, ReadQuantity, IsShort;
    EndTransfers(p, q, kept, t);
    var given, value := Sub(Renames(p), t), ChainEnd(p, t);
    if IsRegister(Follow(p, "alias", t, HOPS)) { RegisterIsComputed(p, kept[g], m, t); }
    if ParseInteger(given).Some? {
      LiteralEnds(p, q, kept, given);
      LiteralIsNotReserved(value);
    } else if IsRegister(value) {
      RegisterIsComputed(q, g, m, given);
      if ParseInteger(value).Some? { LiteralIsNotReserved(value); }
      WordIsComputed(p, kept[g], m, t);
    }
  }

  lemma LiteralEnds(p: seq<LineKind>, q: seq<LineKind>, kept: seq<nat>, t: string)
    requires Lawful(p) && Renamed(p, q, kept) && ParseInteger(t).Some?
    ensures Follow(q, "alias", t, HOPS) == t
  {
    hide Renamed, Renames, ParseInteger, IsShort, Removable, Binding, Follow, RenamingOf;
    LiteralIsOrdinary(p, t);
    LiteralIsUnbound(p, "alias", t);
    LiteralIsUnbound(p, "define", t);
    FollowNothing(p, "alias", t);
    FollowNothing(p, "define", t);
    EndTransfers(p, q, kept, t);
  }

  // ----- the whole program -----

  lemma OneStep<S>(p: seq<LineKind>, e: Engine<S>, c: Config<S>)
    ensures Run(p, e, c, 1) == Step(p, e, c)
  {
    assert Run(p, e, Step(p, e, c), 0) == Step(p, e, c);
  }

  /** A source that is not transparent is told apart from each of its compact builds in one step. */
  lemma OpaqueDiverges(raw: seq<string>, lines: seq<OutputLine>) returns (v: nat, c: Config<Seen>)
    requires CompactFrom(raw, lines) && !Transparent(ProgramOf(raw))
    ensures DivergesFor(ProgramOf(raw), Rebuilt(lines), KeptOf(lines), v, c)
  {
    hide CompactFrom, DivergesFor, ReadsPlainly, PlainTarget, IsOperation, RoleOf, Rebuilt, ProgramOf, KeptOf, IsBranch,
        IsJump, DataOperands;
    var p := ProgramOf(raw);
    forall k | IsOperation(k) ensures k.Instruction? { OperationIsInstruction(k); }
    var i :| 0 <= i < |p| && IsOperation(p[i]) && !PlainOperation(p, p[i]);
    c := StartAt(i, |raw|);
    var m := Lower(p[i].mnemonic);
    if j: nat :| !IsJump(m) && j < |DataOperands(p[i])| && !ReadsPlainly(p, RoleOf(m, j), DataOperands(p[i])[j]) {
      MisreadDiverges(raw, lines, i, j);
      v := |p|;
      assert Diverges(p, Rebuilt(lines), KeptOf(lines), c);
    } else {
      v := MisreadTargetDiverges(raw, lines, i);
    }
  }

  /** The number that replaced a removed label is the place of a surviving line. */
  lemma RemovedTarget(raw: seq<string>, lines: seq<OutputLine>, g: nat) returns (target: nat)
    requires CompactFrom(raw, lines) && g < |lines| && KeptOf(lines)[g] < |raw|
    requires var a := ProgramOf(raw)[KeptOf(lines)[g]];
      a.Instruction? && a.operands != [] && Removable(ProgramOf(raw), a.operands[|a.operands| - 1])
    ensures target < |lines|
    ensures var b := KindsOf(lines)[g];
        b.Instruction? && b.operands != [] && b.operands[|b.operands| - 1] == IntText(target)
  {
    hide CompactFrom, Renames, Dropped, Removable, Surviving, ProgramOf, Collect, ReplaceTokens, ParseInteger, Neat,
        IntText, Tokens, Classify, LineMap, TranslateTarget;
    var p, kept := ProgramOf(raw), KeptOf(lines);
    var x, u, v := CompactThrough(raw, lines, g);
    CompactSource(raw, lines);
    CompactKept(raw, lines);
    RemovableIsRelabelled(p, kept[g], u);
    SkipsRelabelled(x, g, v);
    AdjustedShape(x, g, v);
    var name := u.operands[|u.operands| - 1];
    RemovableIsLabel(p, name);
    TranslateIsBelow(|p|, kept, Collect(p)[name].line);
    target := Below(kept, Collect(p)[name].line);
  }
}
