/** The names an operand may have that are no symbols: registers, device pins, logic types and batch modes. */
module Registers {
  import opened Prelude
  import opened Literals

  const REGISTER_COUNT: nat := 18
  const RETURN_ADDRESS: nat := 16
  const STACK_REGISTER: nat := 17
  const PIN_COUNT: nat := 6

  /** The logic and logic slot types of the language data. */
  const LOGIC_NAMES: set<string>

  /** Logic types and channels, which an operand may name. */
  predicate IsLogicName(s: string) { s in LOGIC_NAMES || StartsWith(s, "Channel") }

  /** The logic type of the line an integrated circuit is at, by name and by number. */
  const LINE_NUMBER: string := "LineNumber"
  const LINE_NUMBER_TYPE: nat := 173

  const BATCH_MODES: set<string> := {"Average", "Sum", "Minimum", "Maximum", "Count"}

  /** A number as indices are written: digits with an optional plus sign. */
  function Ordinal(s: string): Option<nat> {
    var digits := if StartsWith(s, "+") then s[1..] else s;
    if digits == [] || !AllDigits(digits, 10) then None else Some(DigitsValue(digits, 10))
  }

  /** The register a name denotes whatever the state. */
  function DirectRegister(s: string): (r: Option<nat>)
    ensures r.Some? ==> r.value < REGISTER_COUNT && s != [] && (s[0] == 'r' || s[0] == 's')
  {
    if s == "ra" then Some(RETURN_ADDRESS)
    else if s == "sp" then Some(STACK_REGISTER)
    else if !StartsWith(s, "r") then None
    else match Ordinal(s[1..])
      case None => None
      case Some(n) => if n < REGISTER_COUNT then Some(n) else None
  }

  /** A name such as `rr3`: the register whose number register 3 holds. */
  predicate IsIndirect(s: string) { DirectRegister(s).None? && StartsWith(s, "r") && DirectRegister(s[1..]).Some? }

  predicate IsRegister(s: string) { DirectRegister(s).Some? || IsIndirect(s) }

  predicate IsPin(s: string) {
    s == "db" || (StartsWith(s, "d") && match Ordinal(s[1..]) case None => false case Some(n) => n < PIN_COUNT)
  }

  /** The device of an operand such as `d0:1`. */
  function DevicePart(s: string): string {
    if ':' in s then
      IndexOfPresent(s, ':');
      s[..IndexOf(s, ':')]
    else s
  }

  /** The connection after the first colon. */
  function ConnectionPart(s: string): Option<string> {
    if ':' in s then
      IndexOfPresent(s, ':');
      Some(s[IndexOf(s, ':') + 1..])
    else None
  }

  /** What an instruction looks an operand up as. */
  datatype Role = Quantity | Device | Logic | Mode

  const DEVICE_FIRST: set<string> :=
    {"s", "ss", "put", "clr", "bdns", "bdnsal", "brdns", "bdse", "bdseal", "brdse", "bdnvl", "bdnvs"}

  /** The role of operand `j` of a lower-case mnemonic, the target of a branch aside. */
  function RoleOf(m: string, j: nat): Role {
    match j
    case 0 => if m in DEVICE_FIRST then Device else Quantity
    case 1 =>
      if m in {"l", "ls", "get", "sdns", "sdse"} then Device
      else if m in {"s", "sd", "sb", "bdnvl", "bdnvs"} then Logic else Quantity
    case 2 => if m in {"l", "ld", "ss", "lb", "sbn", "sbs"} then Logic else Quantity
    case 3 => if m in {"ls", "lbn", "lbs"} then Logic else if m == "lb" then Mode else Quantity
    case 4 => if m == "lbns" then Logic else if m in {"lbn", "lbs"} then Mode else Quantity
    case 5 => if m == "lbns" then Mode else Quantity
    case _ => Quantity
  }

  /** Which operand of a load names the field of a device; loads from slots read no such field. */
  function FieldOperand(m: string): Option<nat> {
    if m in {"l", "ld", "lb"} then Some(2) else if m == "lbn" then Some(3) else None
  }

  /** Names an operand of this role has a meaning for before defines and labels are consulted. */
  predicate Reserved(role: Role, s: string) {
    match role
    case Quantity => IsRegister(s)
    case Device => IsRegister(s) || StartsWith(s, "d") || ':' in s
    case Logic => IsRegister(s) || IsLogicName(s)
    case Mode => s in BATCH_MODES
  }

  /** No integer literal is a register or a device. */
  lemma LiteralIsNotReserved(s: string)
    requires ParseInteger(s).Some?
    ensures !IsRegister(s) && !StartsWith(s, "d")
  {
    if s != [] && (s[0] == 'r' || s[0] == 'd' || s[0] == 's') {
      assert s[..1] == [s[0]] && (|s| > 1 ==> s[..2][0] == s[0]);
      LetterIsNoDigit(s);
    }
  }

  lemma LetterIsNoDigit(s: string)
    requires s != [] && DigitValue(s[0]) >= 10 && s[0] != '.' && s[0] != '-' && s[0] != '+'
    ensures DecimalInteger(s) == None
  {
    assert s[..1] == [s[0]];
    var dot := IndexOf(s, '.');
    if 0 < dot <= |s| {
      assert s[..dot][0] == s[0];
    }
  }
}
