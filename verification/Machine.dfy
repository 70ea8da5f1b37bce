/**
 The running IC10 program: a small-step machine over parsed lines. What an
 instruction computes is opaque; what the machine fixes is how the program
 counter, the return address and the symbol tables work.
 */
module Machine {
  import opened Prelude
  import opened Text
  import opened Literals
  import opened Registers

  /** Chains of aliases, and of defines, are followed this far. */
  const HOPS: nat := 32

  function LowerChar(c: char): char { if 'A' <= c <= 'Z' then (c as nat + 32) as char else c }

  function Lower(s: string): (r: string)
    ensures |r| == |s|
  {
    seq(|s|, i requires 0 <= i < |s| => LowerChar(s[i]))
  }

  // ----- mnemonics -----

  const UNTRANSLATED: set<string> := {"bdse", "bdns", "bdnvl", "bdnvs"}

  predicate IsRelative(m: string) { m == "jr" || StartsWith(m, "br") }

  /** The absolute branches the compiler knows; four that the machine executes are missing. */
  predicate IsAbsoluteBranch(m: string) {
    m == "j" || m == "jal" || (StartsWith(m, "b") && !StartsWith(m, "br") && m !in UNTRANSLATED)
  }

  predicate IsBranch(m: string) { m == "j" || m == "jal" || m == "jr" || StartsWith(m, "b") }

  predicate IsJump(m: string) { m == "j" || m == "jal" || m == "jr" }

  predicate Links(m: string) { |m| >= 2 && m[|m| - 2..] == "al" }

  // ----- symbols -----

  /** `alias` and `define` lines bind names; they are not executed. */
  predicate IsDirective(k: LineKind) {
    k.Instruction? && (k.mnemonic == "alias" || k.mnemonic == "define") && |k.operands| >= 2
  }

  predicate IsOperation(k: LineKind) { k.Instruction? && !IsDirective(k) }

  predicate Binds(k: LineKind, directive: string, name: string) {
    IsDirective(k) && k.mnemonic == directive && k.operands[0] == name
  }

  /** Later declarations of a name replace earlier ones. */
  function LabelLine(p: seq<LineKind>, name: string): (r: Option<nat>)
    ensures r.Some? ==> r.value < |p| && p[r.value] == Label(name)
  {
    if p == [] then None
    else if p[|p| - 1] == Label(name) then Some(|p| - 1)
    else LabelLine(p[..|p| - 1], name)
  }

  function Binding(p: seq<LineKind>, directive: string, name: string): Option<string> {
    if p == [] then None
    else if Binds(p[|p| - 1], directive, name) then Some(p[|p| - 1].operands[1])
    else Binding(p[..|p| - 1], directive, name)
  }

  function Follow(p: seq<LineKind>, directive: string, token: string, hops: nat): string
    decreases hops
  {
    if hops == 0 then token
    else match Binding(p, directive, token)
      case None => token
      case Some(value) => Follow(p, directive, value, hops - 1)
  }

  /** What an operand stands for. Words are literals and constants; names are registers, pins and logic names. */
  datatype Operand =
    | Line(n: nat)
    | Word(text: string)
    | Name(name: string)
    | Indirect(register: string, otherwise: Operand)
    | Behind(register: string)
    | Port(base: Operand, connection: string)

  /** A number: after aliases and defines, a label's line or a word. */
  function Resolve(p: seq<LineKind>, token: string): (o: Operand)
    ensures o.Line? || o.Word?
  {
    var word := Follow(p, "define", Follow(p, "alias", token, HOPS), HOPS);
    match LabelLine(p, word) case Some(n) => Line(n) case None => Word(word)
  }

  /** A register, if the aliases end at one, else a number. An indirect register may turn out not to exist. */
  function ReadQuantity(p: seq<LineKind>, token: string): Operand {
    var name := Follow(p, "alias", token, HOPS);
    if DirectRegister(name).Some? then Name(name)
    else if IsIndirect(name) then Indirect(name, Resolve(p, token))
    else Resolve(p, token)
  }

  /** A pin, a device whose number some register behind a `d` holds, or a device number. */
  function ReadPin(p: seq<LineKind>, name: string): Operand {
    if IsPin(name) then Name(name)
    else if StartsWith(name, "d") then Behind(Follow(p, "alias", name[1..], HOPS))
    else ReadQuantity(p, name)
  }

  /** A device, perhaps with a connection after a colon. */
  function ReadDevice(p: seq<LineKind>, name: string): Operand {
    match ConnectionPart(name)
    case None => ReadPin(p, name)
    case Some(connection) => Port(ReadPin(p, DevicePart(name)), connection)
  }

  function Read(p: seq<LineKind>, role: Role, token: string): Operand {
    var name := Follow(p, "alias", token, HOPS);
    match role
    case Quantity => ReadQuantity(p, token)
    case Device => ReadDevice(p, name)
    case Logic => if IsLogicName(name) then Name(name) else ReadQuantity(p, name)
    case Mode => if name in BATCH_MODES then Name(name) else Resolve(p, name)
  }

  function ReadAll(p: seq<LineKind>, m: string, tokens: seq<string>): (r: seq<Operand>)
    ensures |r| == |tokens|
  {
    seq(|tokens|, i requires 0 <= i < |tokens| => Read(p, RoleOf(m, i), tokens[i]))
  }

  /** May the register be the one that holds the return address? */
  predicate MayBeReturnAddress(register: string) {
    DirectRegister(register) == Some(RETURN_ADDRESS) || IsIndirect(register)
  }

  predicate MayReadReturnAddress(o: Operand) {
    match o
    case Name(name) => MayBeReturnAddress(name)
    case Indirect(_, _) => true
    case Behind(register) => MayBeReturnAddress(register)
    case Port(base, _) => MayReadReturnAddress(base)
    case _ => false
  }

  predicate NamesReturnAddress(operands: seq<Operand>) { exists o :: o in operands && MayReadReturnAddress(o) }

  /** May the field be the line number? Numbers and registers may stand for any logic type. */
  predicate MayBeLineNumber(field: Operand) {
    match field
    case Line(n) => n == LINE_NUMBER_TYPE
    case Word(w) => (match ParseInteger(w) case Some(v) => v == LINE_NUMBER_TYPE case None => true)
    case Name(name) => name == LINE_NUMBER || !IsLogicName(name)
    case _ => true
  }

  /** May the instruction load the line it stands on, which the housing shows while it runs? */
  predicate MayReadLine(m: string, operands: seq<Operand>) {
    match FieldOperand(m)
    case None => false
    case Some(j) => j < |operands| && MayBeLineNumber(operands[j])
  }

  // ----- targets -----

  /** Where a branch at line `i` goes: a fixed line (possibly before the program) or one computed at run time. */
  datatype Target = Fixed(line: int) | Computed(operand: Operand)

  function TargetOf(p: seq<LineKind>, i: nat, m: string, token: string): Target {
    var base := if IsRelative(m) then i else 0;
    match ReadQuantity(p, token)
    case Line(n) => Fixed(base + n)
    case Word(w) => (match ParseInteger(w) case Some(v) => Fixed(base + v) case None => Computed(Word(w)))
    case o => Computed(o)
  }

  // ----- execution -----

  datatype Outcome<+S> = Continue(state: S) | Halt(state: S)
  datatype Condition<+S> = Taken(state: S) | NotTaken(state: S) | Fault(state: S)

  /**
   What instructions do. The return address is passed only to instructions that name it, and only they change it;
   the line they stand on only to instructions that may load it.
   */
  datatype Engine<!S> = Engine(
    execute: (string, seq<Operand>, S, Option<nat>, Option<nat>) -> (Outcome<S>, nat),
    condition: (string, seq<Operand>, S, Option<nat>) -> Condition<S>,
    compute: (Operand, S, nat) -> Option<int>)

  datatype Config<+S> = Config(pc: nat, ra: nat, state: S, running: bool)

  /** The first operation at or after `pc`. */
  function NextOperation(p: seq<LineKind>, pc: nat): (r: Option<nat>)
    ensures match r
      case None => forall j :: pc <= j < |p| ==> !IsOperation(p[j])
      case Some(i) => pc <= i < |p| && IsOperation(p[i]) && forall j :: pc <= j < i ==> !IsOperation(p[j])
    decreases |p| - pc
  {
    if pc >= |p| then None else if IsOperation(p[pc]) then Some(pc) else NextOperation(p, pc + 1)
  }

  function DataOperands(k: LineKind): seq<string>
    requires k.Instruction?
  {
    if IsBranch(Lower(k.mnemonic)) && k.operands != [] then k.operands[..|k.operands| - 1] else k.operands
  }

  function Destination<S>(p: seq<LineKind>, e: Engine<S>, i: nat, m: string, token: string, s: S,
                          ra: nat): Option<nat> {
    var line := match TargetOf(p, i, m, token)
      case Fixed(line) => Some(line)
      case Computed(o) =>
        match e.compute(o, s, ra)
        case None => None
        case Some(v) => Some((if IsRelative(m) then i else 0) + v);
    if line.Some? && line.value >= 0 then Some(line.value) else None
  }

  /** A taken branch at line `i`; linking happens before a `jal` computes its target, after any other branch does. */
  function Jump<S>(p: seq<LineKind>, e: Engine<S>, i: nat, k: LineKind, s: S, ra: nat): Config<S>
    requires k.Instruction? && k.operands != []
  {
    var m := Lower(k.mnemonic);
    var linked := if Links(m) then i + 1 else ra;
    match Destination(p, e, i, m, k.operands[|k.operands| - 1], s, if m == "jal" then linked else ra)
    case None => Config(i + 1, linked, s, false)
    case Some(d) => Config(d, linked, s, true)
  }

  function Named<S>(data: seq<Operand>, c: Config<S>): Option<nat> {
    if NamesReturnAddress(data) then Some(c.ra) else None
  }

  function Shown(m: string, data: seq<Operand>, i: nat): Option<nat> {
    if MayReadLine(m, data) then Some(i) else None
  }

  function Branch<S>(p: seq<LineKind>, e: Engine<S>, i: nat, k: LineKind, c: Config<S>): Config<S>
    requires k.Instruction? && k.operands != []
  {
    var m := Lower(k.mnemonic);
    var data := ReadAll(p, m, DataOperands(k));
    match if IsJump(m) then Taken(c.state) else e.condition(m, data, c.state, Named(data, c))
    case Fault(s) => Config(i + 1, c.ra, s, false)
    case NotTaken(s) => Config(i + 1, c.ra, s, true)
    case Taken(s) => Jump(p, e, i, k, s, c.ra)
  }

  function Execute<S>(p: seq<LineKind>, e: Engine<S>, i: nat, k: LineKind, c: Config<S>): Config<S>
    requires k.Instruction?
  {
    var m := Lower(k.mnemonic);
    var data := ReadAll(p, m, k.operands);
    var (outcome, ra) := e.execute(m, data, c.state, Named(data, c), Shown(m, data, i));
    Config(i + 1, if NamesReturnAddress(data) then ra else c.ra, outcome.state, outcome.Continue?)
  }

  /** The operation at line `i`. */
  function Perform<S>(p: seq<LineKind>, e: Engine<S>, i: nat, k: LineKind, c: Config<S>): Config<S>
    requires k.Instruction?
  {
    if !IsBranch(Lower(k.mnemonic)) then Execute(p, e, i, k, c)
    else if k.operands == [] then Config(i + 1, c.ra, c.state, false)
    else Branch(p, e, i, k, c)
  }

  function Step<S>(p: seq<LineKind>, e: Engine<S>, c: Config<S>): Config<S> {
    if !c.running then c
    else match NextOperation(p, c.pc)
      case None => c.(running := false)
      case Some(i) => Perform(p, e, i, p[i], c)
  }

  function Run<S>(p: seq<LineKind>, e: Engine<S>, c: Config<S>, n: nat): Config<S>
    decreases n
  {
    if n == 0 then c else Run(p, e, Step(p, e, c), n - 1)
  }
}
