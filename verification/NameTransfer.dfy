/**
 Names through a compact build: under conditions on the source alone, every
 surviving operand means in the generated program what it meant in the source.
 */
module NameTransfer {
  import opened Prelude
  import opened Text
  import opened Literals
  import opened Registers
  import opened Symbols
  import opened Machine
  import opened Relinking
  import opened Environment
  import opened Carrying
  import opened Words
  import opened Readable
  import opened Compact

  // ----- conditions on the source -----

  /** No name is declared twice. */
  predicate Unique(p: seq<LineKind>) {
    forall i, j :: 0 <= i < j < |p| && Declared(p[i], i).Some? && Declared(p[j], j).Some? ==>
      Declared(p[i], i).value.0 != Declared(p[j], j).value.0
  }

  /** Mnemonics are lower-case and no symbol is named like one; directives are complete. */
  predicate PlainMnemonics(p: seq<LineKind>) {
    forall i :: 0 <= i < |p| && p[i].Instruction? ==>
      && Lower(p[i].mnemonic) == p[i].mnemonic && p[i].mnemonic !in Collect(p)
      && (p[i].mnemonic == "alias" || p[i].mnemonic == "define" ==> |p[i].operands| >= 2)
  }

  predicate IsAliasSymbol(p: seq<LineKind>, name: string) {
    name in Collect(p) && Collect(p)[name].kind == AliasName
  }

  /** A define chain does not end at an alias. */
  predicate DefinesEndOutsideAliases(p: seq<LineKind>) {
    var defines := Defines(Collect(p));
    forall name :: name in defines ==> !IsAliasSymbol(p, defines[name])
  }

  /** The generated names are new to the whole source, not only to its symbol table. */
  predicate ShortNamesUnused(p: seq<LineKind>) {
    var aliases := RenamingOf(p).aliases;
    forall name :: name in aliases ==> !IsOperand(p, aliases[name])
  }

  /** A removable label is only ever the last operand. */
  predicate RemovableLast(p: seq<LineKind>) {
    forall i :: 0 <= i < |p| && p[i].Instruction? ==>
      forall j :: 0 <= j < |p[i].operands| && Removable(p, p[i].operands[j]) ==> j == |p[i].operands| - 1
  }

  /** Chains end within the number of hops the machine follows. */
  ghost predicate ShortChains(p: seq<LineKind>) {
    forall directive, t :: Binding(p, directive, Follow(p, directive, t, HOPS)) == None
  }

  /** A define is read through only where neither it nor its value has a meaning of its own. */
  predicate Unreserved(p: seq<LineKind>, role: Role, t: string) {
    var name := Follow(p, "alias", t, HOPS);
    var value := Follow(p, "define", name, HOPS);
    value == name || (!Reserved(role, name) && !Reserved(role, value))
  }

  /** Where the chains of an operand end: first its aliases, then the defines. */
  function ChainEnd(p: seq<LineKind>, t: string): string {
    Follow(p, "define", Follow(p, "alias", t, HOPS), HOPS)
  }

  predicate IsShort(p: seq<LineKind>, t: string) {
    exists name :: name in RenamingOf(p).aliases && RenamingOf(p).aliases[name] == t
  }

  /** The private alias that a generated name stands for. */
  ghost function Shortened(p: seq<LineKind>, t: string): (name: string)
    requires IsShort(p, t)
    ensures name in RenamingOf(p).aliases && RenamingOf(p).aliases[name] == t
  {
    var name :| name in RenamingOf(p).aliases && RenamingOf(p).aliases[name] == t;
    name
  }

  /** Where the generated program takes a name inside an operand, which no replacement touches. */
  ghost function EndAfter(p: seq<LineKind>, t: string): string {
    if IsShort(p, t) then ChainEnd(p, Shortened(p, t)) else if t in Renames(p) then t else ChainEnd(p, t)
  }

  predicate Verbatim(p: seq<LineKind>, t: string) { !IsShort(p, t) && Sub(Renames(p), t) == t }

  /** A number before a colon: its name is declared alike in the generated program, or is a register anyway. */
  predicate PlainPart(p: seq<LineKind>, t: string) {
    if t in Defines(Collect(p)) || Removable(p, t) then DirectRegister(t).Some?
    else Verbatim(p, t) && Unreserved(p, Quantity, t)
  }

  /** The part before the colon. */
  ghost predicate PlainPin(p: seq<LineKind>, name: string) {
    IsPin(name) ||
    if StartsWith(name, "d") then EndAfter(p, name[1..]) == Follow(p, "alias", name[1..], HOPS) else PlainPart(p, name)
  }

  /** A device whose number the register after the `d` holds. */
  predicate IsBehind(s: string) { StartsWith(s, "d") && !IsPin(s) && ':' !in s }

  /**
   A name inside a device operand ends at the same register, and a define is no device unless its value is the same.
   */
  ghost predicate PlainDevice(p: seq<LineKind>, t: string) {
    var name, value := Follow(p, "alias", t, HOPS), ChainEnd(p, t);
    if ':' in name then PlainPin(p, DevicePart(name))
    else if IsBehind(name) && IsBehind(value) then EndAfter(p, value[1..]) == Follow(p, "alias", name[1..], HOPS)
    else Unreserved(p, Device, t)
  }

  ghost predicate ReadsPlainly(p: seq<LineKind>, role: Role, t: string) {
    if role.Device? then PlainDevice(p, t) else Unreserved(p, role, t)
  }

  /** A removed label is not read as a register, and no other target changes what it is. */
  predicate PlainTarget(p: seq<LineKind>, t: string) {
    if Removable(p, t) then !IsRegister(t) else Unreserved(p, Quantity, t)
  }

  ghost predicate PlainOperation(p: seq<LineKind>, k: LineKind)
    requires k.Instruction?
  {
    var m := Lower(k.mnemonic);
    && (!IsJump(m) ==>
          forall j: nat :: j < |DataOperands(k)| ==> ReadsPlainly(p, RoleOf(m, j), DataOperands(k)[j]))
    && (IsBranch(m) && k.operands != [] ==> PlainTarget(p, k.operands[|k.operands| - 1]))
  }

  /** Registers, devices, logic names and batch modes take precedence over names; no operation depends on it. */
  ghost predicate Transparent(p: seq<LineKind>) {
    forall i :: 0 <= i < |p| && IsOperation(p[i]) ==> PlainOperation(p, p[i])
  }

  ghost predicate WellNamed(p: seq<LineKind>) {
    NamesAreIdentifiers(p) && Acyclic(Collect(p)) && Unique(p) && PlainMnemonics(p) && ShortChains(p)
  }

  ghost predicate Lawful(p: seq<LineKind>) {
    WellNamed(p) && DefinesEndOutsideAliases(p) && ShortNamesUnused(p) && RemovableLast(p)
  }

  // ----- the symbol table and the bindings agree -----

  lemma SymbolIsDeclared(p: seq<LineKind>, i: nat)
    requires NamesAreIdentifiers(p) && Unique(p) && i < |p| && Declared(p[i], i).Some?
    ensures var (name, symbol) := Declared(p[i], i).value; name in Collect(p) && Collect(p)[name] == symbol
  {
    hide IsIdentifier;
    var (name, symbol) := Declared(p[i], i).value;
    CollectEntries(p, name);
  }

  lemma DirectiveIsDeclared(p: seq<LineKind>, i: nat, directive: string, name: string)
    requires NamesAreIdentifiers(p) && Unique(p) && i < |p| && Binds(p[i], directive, name)
    ensures name in Collect(p)
    ensures Collect(p)[name] == Symbol(if directive == "define" then DefineName else AliasName, Some(p[i].operands[1]),
        i)
  {
    SymbolIsDeclared(p, i);
  }

  /** The value bound to a name is the one in the symbol table. */
  lemma BindingIsSymbol(p: seq<LineKind>, directive: string, name: string)
    requires NamesAreIdentifiers(p) && Unique(p) && PlainMnemonics(p) && (directive == "alias" || directive == "define")
    ensures var kind := if directive == "define" then DefineName else AliasName;
      Binding(p, directive, name) == if name in Collect(p) && Collect(p)[name].kind == kind then Collect(p)[name].value
        else None
    ensures name in Collect(p) && Collect(p)[name].kind == (if directive == "define" then DefineName else AliasName) ==>
      (Collect(p)[name].value.Some? && Collect(p)[name].line < |p| && Binds(p[Collect(p)[name].line], directive, name)
       && IsOperand(p, Collect(p)[name].value.value))
  {
    hide IsIdentifier, Collect, Unique, NamesAreIdentifiers;
    CollectEntries(p, name);
    var i := BindingIsLast(p, directive, name);
    if Binding(p, directive, name).Some? { DirectiveIsDeclared(p, i, directive, name); }
  }

  lemma LabelIsSymbol(p: seq<LineKind>, name: string)
    requires NamesAreIdentifiers(p) && Unique(p)
    ensures LabelLine(p, name) == if IsLabelSymbol(Collect(p), name) then Some(Collect(p)[name].line) else None
    ensures IsLabelSymbol(Collect(p), name) ==> Collect(p)[name].line < |p| && p[Collect(p)[name].line] == Label(name)
  {
    hide IsIdentifier, Collect, Unique;
    CollectEntries(p, name);
    LabelLineIsLast(p, name);
    if LabelLine(p, name).Some? { SymbolIsDeclared(p, LabelLine(p, name).value); }
    assert forall i :: 0 <= i < |p| && p[i] == Label(name) ==> Label(name) in p;
  }

  // ----- define chains -----

  lemma {:induction false} ChainShifts(defines: Values, name: string, k: nat)
    requires name in defines
    ensures ChainAt(defines, name, k + 1) == ChainAt(defines, defines[name], k)
  {
    if k > 0 { ChainShifts(defines, name, k - 1); } else { assert ChainAt(defines, name, 0) == name; }
  }

  lemma {:induction false} ChainStays(defines: Values, name: string, i: nat, j: nat)
    requires i <= j && ChainAt(defines, name, i) !in defines
    ensures ChainAt(defines, name, j) == ChainAt(defines, name, i)
    decreases j
  {
    if i < j { ChainStays(defines, name, i, j - 1); }
  }

  lemma {:induction false} FollowIsChain(p: seq<LineKind>, name: string, hops: nat)
    requires NamesAreIdentifiers(p) && Unique(p) && PlainMnemonics(p)
    ensures Follow(p, "define", name, hops) == ChainAt(RawDefines(Collect(p)), name, hops)
    decreases hops
  {
    var defines := RawDefines(Collect(p));
    BindingIsSymbol(p, "define", name);
    if hops > 0 {
      if name in defines {
        FollowIsChain(p, defines[name], hops - 1);
        ChainShifts(defines, name, hops - 1);
      } else {
        ChainStays(defines, name, 0, hops);
      }
    }
  }

  /** What the compiler substitutes for a define is what the machine resolves it to. */
  lemma DefineResolves(p: seq<LineKind>, name: string)
    requires WellNamed(p)
    ensures Follow(p, "define", name, HOPS) ==
      if name in Defines(Collect(p)) then Defines(Collect(p))[name] else name
    ensures name in Defines(Collect(p)) <==> name in Collect(p) && Collect(p)[name].kind == DefineName
  {
    var raw := RawDefines(Collect(p));
    BindingIsSymbol(p, "define", name);
    FollowIsChain(p, name, HOPS);
    if name in raw {
      AcyclicDefinesResolve(Collect(p), name);
      ResolveDefineIsTotal(raw, name);
      var v := ResolveDefine(raw, name).value;
      var k: nat :| ChainAt(raw, name, k) == v;
      BindingIsSymbol(p, "define", Follow(p, "define", name, HOPS));
      if k <= HOPS { ChainStays(raw, name, k, HOPS); } else { ChainStays(raw, name, HOPS, k); }
    } else {
      ChainStays(raw, name, 0, HOPS);
    }
  }

  // ----- the substitution -----

  function Renames(p: seq<LineKind>): Substitution { Replacements(RenamingOf(p)) }

  /** What happens to a token: private aliases get their short name, defines their value, others stay. */
  lemma SubCases(p: seq<LineKind>, t: string)
    requires Lawful(p)
    ensures IsAliasSymbol(p, t) && IsPrivate(Collect(p), t) ==>
      (t in RenamingOf(p).aliases && Sub(Renames(p), t) == RenamingOf(p).aliases[t] &&
        RenamingOf(p).aliases[t] !in Collect(p))
    ensures t in Defines(Collect(p)) ==> Sub(Renames(p), t) == Defines(Collect(p))[t] && !IsAliasSymbol(p, t)
    ensures !IsPrivate(Collect(p), t) && t !in Defines(Collect(p)) ==> Sub(Renames(p), t) == t && t !in Renames(p)
    ensures t in Renames(p) ==> t in Collect(p)
  {
    var names := PrivateAliases(p);
    hide IsIdentifier, Defines;
    PrivateAliasesAre(p, t);
    ShortNamesAreFresh(names, Collect(p).Keys);
    DefineResolves(p, t);
    CollectEntries(p, t);
    if t in Collect(p) { assert t != [] by { assert IsIdentifier(t); IdentifierIsNotEmpty(t); } }
  }

  lemma IdentifierIsNotEmpty(t: string)
    requires IsIdentifier(t)
    ensures t != []
  {}

  lemma RenameInjective(p: seq<LineKind>, a: string, b: string)
    requires Lawful(p) && IsAliasSymbol(p, a) && IsAliasSymbol(p, b) && Sub(Renames(p), a) == Sub(Renames(p), b)
    ensures a == b
  {
    hide Collect, RenamingOf, Lawful;
    SubCases(p, a);
    SubCases(p, b);
    assert RenamingOf(p).aliases == ShortNames(PrivateAliases(p), Collect(p).Keys) by { AliasesAre(p); }
    ShortNamesAreFresh(PrivateAliases(p), Collect(p).Keys);
    assert a !in Defines(Collect(p)) && b !in Defines(Collect(p));
  }

  lemma AliasesAre(p: seq<LineKind>)
    ensures RenamingOf(p).aliases == ShortNames(PrivateAliases(p), Collect(p).Keys)
  {}

  // ----- the generated program -----

  predicate IsDefineLine(k: LineKind) { IsDirective(k) && k.mnemonic == "define" }

  predicate Dropped(p: seq<LineKind>, k: LineKind) {
    k == Empty || IsDefineLine(k) || (k.Label? && Removable(p, k.name))
  }

  /** `b` is `a` with its operands substituted, up to the last operand of a branch. */
  predicate SubstitutedButTarget(r: Substitution, a: LineKind, b: LineKind) {
    if a.Instruction? then SameButTarget(a.(operands := SubAll(r, a.operands)), b) else b == a
  }

  ghost predicate Renamed(p: seq<LineKind>, q: seq<LineKind>, kept: seq<nat>) {
    && Increasing(kept, |p|) && |kept| == |q|
    && (forall i :: 0 <= i < |p| && i !in kept ==> Dropped(p, p[i]))
    && (forall g :: 0 <= g < |q| ==> !Dropped(p, p[kept[g]]) && SubstitutedButTarget(Renames(p), p[kept[g]], q[g]))
  }

  lemma RenamedBinds(r: Substitution, a: LineKind, b: LineKind, directive: string, name: string)
    requires SubstitutedButTarget(r, a, b)
    ensures Binds(b, directive, name) ==>
        IsDirective(a) && a.mnemonic == directive && b.operands == SubAll(r, a.operands)
    ensures Binds(a, directive, name) ==> Binds(b, directive, Sub(r, name)) && b.operands == SubAll(r, a.operands)
    ensures b == Label(name) <==> a == Label(name)
  {
    if IsDirective(a) { DirectivesDoNotBranch(a); }
    if IsDirective(b) { DirectivesDoNotBranch(b); }
  }

  lemma NoDefines(p: seq<LineKind>, q: seq<LineKind>, kept: seq<nat>, t: string)
    requires Renamed(p, q, kept)
    ensures Binding(q, "define", t) == None
  {
    hide SubstitutedButTarget, Renames, Removable;
    forall g | 0 <= g < |q|
      ensures !Binds(q[g], "define", t)
    {
      RenamedBinds(Renames(p), p[kept[g]], q[g], "define", t);
    }
    NoBinding(q, "define", t);
  }

  lemma NoAlias(p: seq<LineKind>, q: seq<LineKind>, kept: seq<nat>, t: string)
    requires Lawful(p) && Renamed(p, q, kept) && !IsAliasSymbol(p, t) && !IsShort(p, t)
    ensures Binding(q, "alias", t) == None
  {
    hide SubstitutedButTarget, Renames, Collect, RenamingOf, NamesAreIdentifiers, Unique, PlainMnemonics;
    forall g | 0 <= g < |q| ensures !Binds(q[g], "alias", t) {
      var a := p[kept[g]];
      RenamedBinds(Renames(p), a, q[g], "alias", t);
      if Binds(q[g], "alias", t) {
        var name := a.operands[0];
        DirectiveIsDeclared(p, kept[g], "alias", name);
        SubCases(p, name);
        DefineIsNoAlias(p, name);
      }
    }
    NoBinding(q, "alias", t);
  }

  lemma DefineIsNoAlias(p: seq<LineKind>, name: string)
    requires Lawful(p) && IsAliasSymbol(p, name)
    ensures name !in Defines(Collect(p))
  {
    DefineResolves(p, name);
  }

  /** An alias line binds the new name to the new value. */
  lemma AliasTransfers(p: seq<LineKind>, q: seq<LineKind>, kept: seq<nat>, name: string)
    requires Lawful(p) && Renamed(p, q, kept) && IsAliasSymbol(p, name)
    ensures Binding(p, "alias", name).Some?
    ensures Binding(q, "alias", Sub(Renames(p), name)) == Some(Sub(Renames(p), Binding(p, "alias", name).value))
  {
    hide SubstitutedButTarget, Renames, RenamingOf, NamesAreIdentifiers, Unique, PlainMnemonics, Acyclic, Removable;
    var r := Renames(p);
    BindingIsSymbol(p, "alias", name);
    forall g | 0 <= g < |q| ensures Binds(q[g], "alias", Sub(r, name)) <==> Binds(p[kept[g]], "alias", name) {
      AliasLineTransfers(p, kept[g], q[g], name);
    }
    var g := BindingMoves(p, q, kept, "alias", name, Sub(r, name));
    RenamedBinds(r, p[kept[g]], q[g], "alias", name);
  }

  lemma AliasLineTransfers(p: seq<LineKind>, i: nat, b: LineKind, name: string)
    requires Lawful(p) && i < |p| && SubstitutedButTarget(Renames(p), p[i], b) && IsAliasSymbol(p, name)
    ensures Binds(b, "alias", Sub(Renames(p), name)) <==> Binds(p[i], "alias", name)
  {
    hide SubstitutedButTarget, Renames, RenamingOf, NamesAreIdentifiers, Unique, PlainMnemonics, Acyclic, Collect;
    var r := Renames(p);
    RenamedBinds(r, p[i], b, "alias", Sub(r, name));
    RenamedBinds(r, p[i], b, "alias", name);
    if Binds(b, "alias", Sub(r, name)) {
      var other := p[i].operands[0];
      DirectiveIsDeclared(p, i, "alias", other);
      RenameInjective(p, other, name);
    }
  }

  // ----- operands keep their meaning -----

  /** `t` is the value of some alias or define. */
  ghost predicate IsBoundValue(p: seq<LineKind>, t: string) {
    exists i :: 0 <= i < |p| && IsDirective(p[i]) && p[i].operands[1] == t
  }

  lemma BoundValues(p: seq<LineKind>, t: string)
    requires IsBoundValue(p, t)
    ensures IsOperand(p, t) && !Removable(p, t)
  {
    var i :| 0 <= i < |p| && IsDirective(p[i]) && p[i].operands[1] == t;
    assert t in p[i].operands;
    assert !IsAbsoluteBranch(p[i].mnemonic) by { assert "alias"[0] == 'a' && "define"[0] == 'd'; }
  }

  lemma BindingIsBoundValue(p: seq<LineKind>, directive: string, name: string)
    ensures Binding(p, directive, name).Some? ==> IsBoundValue(p, Binding(p, directive, name).value)
  {
    var i := BindingIsLast(p, directive, name);
  }

  lemma {:induction false} FollowIsBoundValue(p: seq<LineKind>, directive: string, t: string, hops: nat)
    ensures Follow(p, directive, t, hops) == t || IsBoundValue(p, Follow(p, directive, t, hops))
    decreases hops
  {
    hide IsBoundValue;
    BindingIsBoundValue(p, directive, t);
    if hops > 0 && Binding(p, directive, t).Some? {
      FollowIsBoundValue(p, directive, Binding(p, directive, t).value, hops - 1);
    }
  }

  lemma BoundValueIsNotShort(p: seq<LineKind>, t: string)
    requires Lawful(p) && IsBoundValue(p, t)
    ensures !IsShort(p, t)
  {
    BoundValues(p, t);
  }

  /** Outside the aliases, a token becomes what its define chain ends at, which is neither an alias nor a short name. */
  lemma SubOutsideAliases(p: seq<LineKind>, t: string)
    requires Lawful(p) && !IsAliasSymbol(p, t) && !IsShort(p, t)
    ensures Sub(Renames(p), t) == Follow(p, "define", t, HOPS)
    ensures !IsAliasSymbol(p, Sub(Renames(p), t)) && !IsShort(p, Sub(Renames(p), t))
  {
    hide Renames, NamesAreIdentifiers, Unique, PlainMnemonics, Acyclic, IsBoundValue, IsShort, RenamingOf;
    SubCases(p, t);
    DefineResolves(p, t);
    var v := Follow(p, "define", t, HOPS);
    FollowIsBoundValue(p, "define", t, HOPS);
    if IsBoundValue(p, v) { BoundValueIsNotShort(p, v); }
  }

  lemma {:induction false} FollowTransfers(p: seq<LineKind>, q: seq<LineKind>, kept: seq<nat>, t: string, hops: nat)
    requires Lawful(p) && Renamed(p, q, kept) && !IsShort(p, t)
    requires Binding(p, "alias", Follow(p, "alias", t, hops)) == None
    ensures var w := Follow(p, "alias", t, hops);
      !IsShort(p, w) && !IsAliasSymbol(p, w) && Follow(q, "alias", Sub(Renames(p), t), hops) == Sub(Renames(p), w)
    decreases hops
  {
    hide Renames, IsBoundValue, IsShort, Renamed, Lawful, IsAliasSymbol;
    if IsAliasSymbol(p, t) {
      AliasTransfers(p, q, kept, t);
      BindingIsBoundValue(p, "alias", t);
      var v := Binding(p, "alias", t).value;
      BoundValueIsNotShort(p, v);
      if hops > 0 { FollowTransfers(p, q, kept, v, hops - 1); }
    } else {
      NotAliasNotBound(p, t);
      SubOutsideAliases(p, t);
      NoAlias(p, q, kept, Sub(Renames(p), t));
    }
  }

  lemma NotAliasNotBound(p: seq<LineKind>, t: string)
    requires Lawful(p) && !IsAliasSymbol(p, t)
    ensures Binding(p, "alias", t) == None
  {
    BindingIsSymbol(p, "alias", t);
  }

  lemma LabelTransfers(p: seq<LineKind>, q: seq<LineKind>, kept: seq<nat>, name: string)
    requires Renamed(p, q, kept) && !Removable(p, name)
    ensures LabelLine(q, name) == MovedLine(kept, |p|, LabelLine(p, name))
  {
    hide SubstitutedButTarget, Renames, Removable;
    forall g | 0 <= g < |q| ensures q[g] == Label(name) <==> p[kept[g]] == Label(name) {
      RenamedBinds(Renames(p), p[kept[g]], q[g], "alias", name);
    }
    LabelMoves(p, q, kept, name);
  }

  lemma FollowNothing(q: seq<LineKind>, directive: string, t: string)
    requires Binding(q, directive, t) == None
    ensures Follow(q, directive, t, HOPS) == t
  {}

  /** Every operand but a removable label means what it meant. */
  lemma ResolveTransfers(p: seq<LineKind>, q: seq<LineKind>, kept: seq<nat>, t: string)
    requires Lawful(p) && Renamed(p, q, kept) && !IsShort(p, t) && !Removable(p, t)
    ensures Resolve(q, Sub(Renames(p), t)) == MovedOperand(kept, |p|, Resolve(p, t))
  {
    hide Renames, IsBoundValue, IsShort, Renamed, IsAliasSymbol, Removable, Follow, Rank, NamesAreIdentifiers, Unique,
        PlainMnemonics;
    var w := Follow(p, "alias", t, HOPS);
    FollowTransfers(p, q, kept, t, HOPS);
    SubOutsideAliases(p, w);
    var z := Sub(Renames(p), w);
    NoDefines(p, q, kept, z);
    FollowNothing(q, "define", z);
    FollowIsBoundValue(p, "alias", t, HOPS);
    FollowIsBoundValue(p, "define", w, HOPS);
    if IsBoundValue(p, z) { BoundValues(p, z); }
    LabelTransfers(p, q, kept, z);
  }

  // ----- reading operands -----

  /** Where the aliases of an operand end, in the source and in the generated program. */
  lemma EndTransfers(p: seq<LineKind>, q: seq<LineKind>, kept: seq<nat>, t: string)
    requires Lawful(p) && Renamed(p, q, kept) && !IsShort(p, t)
    ensures var name := Follow(p, "alias", t, HOPS);
      && Follow(q, "alias", Sub(Renames(p), t), HOPS) == ChainEnd(p, t) == Sub(Renames(p), name)
      && !IsShort(p, name) && !IsAliasSymbol(p, name) && Follow(p, "alias", name, HOPS) == name
      && (!Removable(p, t) ==> !Removable(p, name))
  {
    hide Renames, IsBoundValue, IsShort, Renamed, IsAliasSymbol, Removable, Follow, NamesAreIdentifiers, Unique,
        PlainMnemonics;
    var name := Follow(p, "alias", t, HOPS);
    FollowTransfers(p, q, kept, t, HOPS);
    SubOutsideAliases(p, name);
    FollowIsBoundValue(p, "alias", t, HOPS);
    if IsBoundValue(p, name) { BoundValues(p, name); }
    FollowNothing(p, "alias", name);
  }

  /** A private alias is declared under another name. */
  lemma PrivateIsGone(p: seq<LineKind>, q: seq<LineKind>, kept: seq<nat>, t: string)
    requires Lawful(p) && Renamed(p, q, kept) && IsAliasSymbol(p, t) && IsPrivate(Collect(p), t)
    ensures Binding(q, "alias", t) == None
  {
    hide SubstitutedButTarget, Renames, Collect, RenamingOf, NamesAreIdentifiers, Unique, PlainMnemonics, IsPrivate;
    forall g | 0 <= g < |q| ensures !Binds(q[g], "alias", t) {
      var a := p[kept[g]];
      RenamedBinds(Renames(p), a, q[g], "alias", t);
      if Binds(q[g], "alias", t) {
        var name := a.operands[0];
        DirectiveIsDeclared(p, kept[g], "alias", name);
        SubCases(p, name);
        DefineIsNoAlias(p, name);
      }
    }
    NoBinding(q, "alias", t);
  }

  /** Following a name that is left as it is. */
  lemma FollowsAfter(p: seq<LineKind>, q: seq<LineKind>, kept: seq<nat>, t: string)
    requires Lawful(p) && Renamed(p, q, kept)
    ensures Follow(q, "alias", t, HOPS) == EndAfter(p, t)
  {
    hide Lawful, Renamed, IsShort, Renames, Follow, ChainEnd, RenamingOf, Collect, Defines;
    if IsShort(p, t) {
      ShortStandsFor(p, t);
      EndTransfers(p, q, kept, Shortened(p, t));
    } else if t in Renames(p) {
      RenamedIsAliasOrDefine(p, t);
      if IsAliasSymbol(p, t) { PrivateIsGone(p, q, kept, t); } else { NoAlias(p, q, kept, t); }
      FollowNothing(q, "alias", t);
    } else {
      EndTransfers(p, q, kept, t);
      assert Sub(Renames(p), t) == t;
    }
  }

  lemma ShortStandsFor(p: seq<LineKind>, t: string)
    requires Lawful(p) && IsShort(p, t)
    ensures var name := Shortened(p, t);
      IsAliasSymbol(p, name) && IsPrivate(Collect(p), name) && !IsShort(p, name) && Sub(Renames(p), name) == t
    ensures t !in Collect(p)
  {
    hide Collect, Renames, NamesAreIdentifiers, Unique, PlainMnemonics, Acyclic, Defines;
    var name := Shortened(p, t);
    AliasesAre(p);
    PrivateAliasesAre(p, name);
    ShortNamesAreFresh(PrivateAliases(p), Collect(p).Keys);
    SubCases(p, name);
  }

  lemma RenamedIsAliasOrDefine(p: seq<LineKind>, t: string)
    requires Lawful(p) && t in Renames(p)
    ensures t in Collect(p)
    ensures (IsAliasSymbol(p, t) && IsPrivate(Collect(p), t)) || (!IsAliasSymbol(p, t) && t in Defines(Collect(p)))
  {
    hide Collect, NamesAreIdentifiers, Unique, PlainMnemonics, Acyclic, Defines;
    SubCases(p, t);
    PrivateAliasesAre(p, t);
    AliasesAre(p);
  }

  lemma QuantityTransfers(p: seq<LineKind>, q: seq<LineKind>, kept: seq<nat>, t: string)
    requires Lawful(p) && Renamed(p, q, kept) && !IsShort(p, t) && !Removable(p, t) && Unreserved(p, Quantity, t)
    ensures ReadQuantity(q, Sub(Renames(p), t)) == MovedOperand(kept, |p|, ReadQuantity(p, t))
  {
    hide Lawful, Renamed, IsShort, Removable, Renames, Follow, Resolve, Rank, IsIndirect, DirectRegister;
    EndTransfers(p, q, kept, t);
    ResolveTransfers(p, q, kept, t);
  }

  lemma PinTransfers(p: seq<LineKind>, q: seq<LineKind>, kept: seq<nat>, name: string)
    requires Lawful(p) && Renamed(p, q, kept) && PlainPin(p, name)
    ensures ReadPin(q, name) == MovedOperand(kept, |p|, ReadPin(p, name))
  {
    hide Lawful, Renamed, IsShort, Removable, Renames, Follow, ReadQuantity, Rank, IsPin, Unreserved, PlainPart,
        EndAfter;
    if !IsPin(name) {
      if StartsWith(name, "d") {
        FollowsAfter(p, q, kept, name[1..]);
      } else {
        PartTransfers(p, q, kept, name);
      }
    }
  }

  lemma PartTransfers(p: seq<LineKind>, q: seq<LineKind>, kept: seq<nat>, t: string)
    requires Lawful(p) && Renamed(p, q, kept) && PlainPart(p, t)
    ensures ReadQuantity(q, t) == MovedOperand(kept, |p|, ReadQuantity(p, t))
  {
    hide Lawful, Renamed, IsShort, Removable, Renames, Follow, Resolve, Rank, IsIndirect, DirectRegister, Unreserved;
    if t in Defines(Collect(p)) || Removable(p, t) {
      GoneIsNoAlias(p, t);
      NoAlias(p, q, kept, t);
      FollowNothing(p, "alias", t);
      FollowNothing(q, "alias", t);
    } else {
      QuantityTransfers(p, q, kept, t);
    }
  }

  /** Inlined defines and removed labels are no aliases, nor generated names. */
  lemma GoneIsNoAlias(p: seq<LineKind>, t: string)
    requires Lawful(p) && (t in Defines(Collect(p)) || Removable(p, t))
    ensures t in Collect(p) && !IsAliasSymbol(p, t) && !IsShort(p, t) && Binding(p, "alias", t) == None
  {
    hide Collect, NamesAreIdentifiers, Unique, PlainMnemonics, Acyclic, Defines, IsShort, Renames;
    DefineResolves(p, t);
    NotAliasNotBound(p, t);
    if IsShort(p, t) { ShortStandsFor(p, t); }
  }

  lemma PinsStartWithD(name: string)
    ensures IsPin(name) ==> StartsWith(name, "d")
  {}

  lemma DeviceTransfers(p: seq<LineKind>, q: seq<LineKind>, kept: seq<nat>, t: string)
    requires Lawful(p) && Renamed(p, q, kept) && !IsShort(p, t) && !Removable(p, t) && PlainDevice(p, t)
    ensures Read(q, Device, Sub(Renames(p), t)) == MovedOperand(kept, |p|, Read(p, Device, t))
  {
    hide Lawful, Renamed, IsShort, Removable, Renames, Follow, ReadQuantity, Rank, IsIndirect, DirectRegister, PlainPin,
        Ordinal, EndAfter, IsPin;
    EndTransfers(p, q, kept, t);
    var name, value := Follow(p, "alias", t, HOPS), ChainEnd(p, t);
    if value != name { InlinedIsWord(p, name); }
    PinsStartWithD(name);
    PinsStartWithD(value);
    if ':' in name {
      PinTransfers(p, q, kept, DevicePart(name));
    } else if IsBehind(name) && IsBehind(value) {
      FollowsAfter(p, q, kept, value[1..]);
    } else if !IsPin(name) {
      QuantityTransfers(p, q, kept, name);
    }
  }

  lemma InlinedIsWord(p: seq<LineKind>, name: string)
    requires Lawful(p) && Follow(p, "define", name, HOPS) != name
    ensures ':' !in name
  {
    hide Collect, Follow;
    DefineResolves(p, name);
    SymbolsAreWords(p, name);
  }

  lemma IdentifierIsWord(t: string)
    requires IsIdentifier(t)
    ensures IsWord(t)
  {}

  lemma SymbolsAreWords(p: seq<LineKind>, t: string)
    requires t in Collect(p)
    ensures IsWord(t) && ':' !in t
  {
    CollectEntries(p, t);
    IdentifierIsWord(t);
  }

  /** Every operand that reads plainly means in the generated program what it meant in the source. */
  lemma ReadTransfers(p: seq<LineKind>, q: seq<LineKind>, kept: seq<nat>, role: Role, t: string)
    requires Lawful(p) && Renamed(p, q, kept) && !IsShort(p, t) && !Removable(p, t) && ReadsPlainly(p, role, t)
    ensures Read(q, role, Sub(Renames(p), t)) == MovedOperand(kept, |p|, Read(p, role, t))
  {
    hide Lawful, Renamed, IsShort, Removable, Renames, Follow, ReadQuantity, Resolve, Rank, IsIndirect, DirectRegister,
        PlainDevice, ReadDevice;
    match role
    case Quantity => QuantityTransfers(p, q, kept, t);
    case Device => DeviceTransfers(p, q, kept, t);
    case Logic =>
      EndTransfers(p, q, kept, t);
      QuantityTransfers(p, q, kept, Follow(p, "alias", t, HOPS));
    case Mode =>
      EndTransfers(p, q, kept, t);
      ResolveTransfers(p, q, kept, Follow(p, "alias", t, HOPS));
  }
}
