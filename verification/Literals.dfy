/** Integer operands: the numeric spellings a branch target may have, and how a rewritten target is printed. */
module Literals {
  import opened Prelude
  import opened Text

  function DigitValue(c: char): nat {
    if '0' <= c <= '9' then c as nat - '0' as nat
    else if 'a' <= c <= 'f' then c as nat - 'a' as nat + 10
    else if 'A' <= c <= 'F' then c as nat - 'A' as nat + 10
    else 99
  }

  predicate AllDigits(s: string, radix: nat) {
    forall i :: 0 <= i < |s| ==> DigitValue(s[i]) < radix
  }

  function DigitsValue(s: string, radix: nat): nat {
    if s == [] then 0 else DigitsValue(s[..|s| - 1], radix) * radix + DigitValue(s[|s| - 1])
  }

  predicate StartsWith(s: string, prefix: string) { |prefix| <= |s| && s[..|prefix|] == prefix }

  const I64_LIMIT: nat := 0x8000_0000_0000_0000

  /** `i64::from_str_radix`. */
  function RadixInteger(s: string, radix: nat): Option<int> {
    var negative := StartsWith(s, "-");
    var digits := if negative || StartsWith(s, "+") then s[1..] else s;
    if digits == [] || !AllDigits(digits, radix) then None
    else
      var v: int := DigitsValue(digits, radix);
      if v < I64_LIMIT || (negative && v == I64_LIMIT) then Some(if negative then -v else v) else None
  }

  function IndexOf(s: string, c: char): nat {
    if s == [] || s[0] == c then 0 else 1 + IndexOf(s[1..], c)
  }

  /** A decimal with an optional sign and an optional all-zero fraction. */
  function DecimalInteger(s: string): Option<int> {
    var negative := StartsWith(s, "-");
    var body := if negative || StartsWith(s, "+") then s[1..] else s;
    var dot := IndexOf(body, '.');
    if dot > |body| then None
    else
      var fraction := if dot < |body| then body[dot + 1..] else [];
      if body[..dot] == [] && fraction == [] then None
      else if !AllDigits(body[..dot], 10) || exists i :: 0 <= i < |fraction| && fraction[i] != '0' then None
      else
        var v: int := DigitsValue(body[..dot], 10);
        Some(if negative then -v else v)
  }

  /** The integer a token denotes when it is an integral numeric literal. */
  function ParseInteger(token: string): Option<int> {
    var negative := StartsWith(token, "-");
    var unsigned := if negative then token[1..] else token;
    var radix := if StartsWith(unsigned, "$") || StartsWith(unsigned, "0x") || StartsWith(unsigned, "0X") then 16
                 else if StartsWith(unsigned, "%") || StartsWith(unsigned, "0b") || StartsWith(unsigned, "0B") then 2
                 else 10;
    if radix == 10 then DecimalInteger(token)
    else
      match RadixInteger(unsigned[if unsigned[0] == '0' then 2 else 1..], radix)
      case None => None
      case Some(v) => Some(if negative then -v else v)
  }

  // ----- printing -----

  function NatText(n: nat): (s: string)
    ensures s != [] && AllDigits(s, 10) && forall i :: 0 <= i < |s| ==> '0' <= s[i] <= '9'
  {
    (if n < 10 then [] else NatText(n / 10)) + [('0' as nat + n % 10) as char]
  }

  function IntText(n: int): string { if n < 0 then "-" + NatText(-n) else NatText(n) }

  lemma {:induction false} NatTextValue(n: nat)
    ensures DigitsValue(NatText(n), 10) == n
  {
    var s := NatText(n);
    if n >= 10 {
      NatTextValue(n / 10);
      assert s[..|s| - 1] == NatText(n / 10);
    } else {
      assert s[..|s| - 1] == [];
    }
  }

  lemma {:induction false} IndexOfAbsent(s: string, c: char)
    requires c !in s
    ensures IndexOf(s, c) == |s|
  {
    if s != [] { IndexOfAbsent(s[1..], c); }
  }

  lemma {:induction false} IndexOfPresent(s: string, c: char)
    requires c in s
    ensures IndexOf(s, c) < |s| && s[IndexOf(s, c)] == c
  {
    if s[0] != c { IndexOfPresent(s[1..], c); }
  }

  lemma SignStripped(s: string)
    requires s != [] && s[0] != '-' && s[0] != '+'
    ensures StartsWith("-" + s, "-") && ("-" + s)[1..] == s && !StartsWith(s, "-") && !StartsWith(s, "+")
  {
    assert ("-" + s)[..1] == "-" && s[..1] == [s[0]];
  }

  lemma DecimalDigits(s: string, negative: bool)
    requires s != [] && AllDigits(s, 10) && s[0] != '-' && s[0] != '+' && '.' !in s
    ensures var v: int := DigitsValue(s, 10);
      DecimalInteger(if negative then "-" + s else s) == Some(if negative then -v else v)
  {
    SignStripped(s);
    IndexOfAbsent(s, '.');
    assert s[..|s|] == s;
    hide AllDigits, DigitsValue, IndexOf, StartsWith;
  }

  lemma DecimalRadix(s: string, negative: bool)
    requires s != [] && forall i :: 0 <= i < |s| ==> '0' <= s[i] <= '9'
    ensures var t := if negative then "-" + s else s; ParseInteger(t) == DecimalInteger(t)
  {
    hide DecimalInteger, RadixInteger;
    assert ("-" + s)[1..] == s && ("-" + s)[..1] == "-";
    assert s[..1] == [s[0]];
    assert |s| > 1 ==> s[..2][1] == s[1];
    assert "0x"[1] == 'x' && "0X"[1] == 'X' && "0b"[1] == 'b' && "0B"[1] == 'B';
  }

  /** A printed target reads back as itself. */
  lemma IntTextParses(n: int)
    ensures ParseInteger(IntText(n)) == Some(n)
  {
    var m: nat := if n < 0 then -n else n;
    NatTextValue(m);
    DecimalRadix(NatText(m), n < 0);
    DecimalDigits(NatText(m), n < 0);
  }

  // ----- other spellings -----

  function DigitChar(d: nat): char
    requires d < 16
  {
    if d < 10 then ('0' as nat + d) as char else ('a' as nat + d - 10) as char
  }

  function HexText(n: nat): string { (if n < 16 then [] else HexText(n / 16)) + [DigitChar(n % 16)] }

  function BinaryText(n: nat): string { (if n < 2 then [] else BinaryText(n / 2)) + [DigitChar(n % 2)] }

  predicate Spells(s: string, radix: nat, n: nat) {
    s != [] && AllDigits(s, radix) && DigitsValue(s, radix) == n && s[0] != '-' && s[0] != '+'
  }

  lemma OneMoreDigit(s: string, radix: nat, n: nat, d: nat)
    requires d < radix <= 16 && ((s == [] && n == 0) || Spells(s, radix, n))
    ensures Spells(s + [DigitChar(d)], radix, n * radix + d)
  {
    var t := s + [DigitChar(d)];
    assert t[..|t| - 1] == s && DigitValue(DigitChar(d)) == d;
  }

  lemma {:induction false} HexTextSpells(n: nat)
    ensures Spells(HexText(n), 16, n)
  {
    hide Spells;
    if n >= 16 { HexTextSpells(n / 16); }
    OneMoreDigit(if n < 16 then [] else HexText(n / 16), 16, n / 16, n % 16);
  }

  lemma {:induction false} BinaryTextSpells(n: nat)
    ensures Spells(BinaryText(n), 2, n)
  {
    hide Spells;
    if n >= 2 { BinaryTextSpells(n / 2); }
    OneMoreDigit(if n < 2 then [] else BinaryText(n / 2), 2, n / 2, n % 2);
  }

  lemma RadixParses(s: string, radix: nat, v: nat)
    requires Spells(s, radix, v) && v < I64_LIMIT
    ensures RadixInteger(s, radix) == Some(v)
  {
    SignStripped(s);
    hide AllDigits, DigitsValue, StartsWith;
  }

  predicate IsHexPrefix(prefix: string) { prefix == "$" || prefix == "0x" || prefix == "0X" }

  predicate IsBinaryPrefix(prefix: string) { prefix == "%" || prefix == "0b" || prefix == "0B" }

  /** What comes before the digits, and what is left behind it. */
  lemma PrefixRead(prefix: string, s: string)
    requires IsHexPrefix(prefix) || IsBinaryPrefix(prefix)
    ensures var t := prefix + s;
      && !StartsWith(t, "-") && t != [] && t[if t[0] == '0' then 2 else 1..] == s
      && (StartsWith(t, "$") || StartsWith(t, "0x") || StartsWith(t, "0X") <==> IsHexPrefix(prefix))
      && (IsBinaryPrefix(prefix) ==> StartsWith(t, "%") || StartsWith(t, "0b") || StartsWith(t, "0B"))
      && StartsWith("-" + t, "-") && ("-" + t)[1..] == t
  {
    var t := prefix + s;
    assert t[..|prefix|] == prefix && t[..1] == [prefix[0]];
    assert |prefix| == 2 ==> t[..2] == prefix;
    assert ("-" + t)[..1] == "-";
  }

  predicate IsHex(t: string) { StartsWith(t, "$") || StartsWith(t, "0x") || StartsWith(t, "0X") }

  predicate IsBinary(t: string) { StartsWith(t, "%") || StartsWith(t, "0b") || StartsWith(t, "0B") }

  lemma SpelledParses(token: string, negative: bool, unsigned: string, s: string, hex: bool, n: nat)
    requires StartsWith(token, "-") == negative && unsigned == (if negative then token[1..] else token)
    requires unsigned != [] && (unsigned[0] == '0' ==> |unsigned| >= 2)
    requires unsigned[if unsigned[0] == '0' then 2 else 1..] == s
    requires IsHex(unsigned) == hex && (!hex ==> IsBinary(unsigned))
    requires RadixInteger(s, if hex then 16 else 2) == Some(n)
    ensures ParseInteger(token) == Some(if negative then 0 - n else n)
  {
    hide StartsWith, RadixInteger, DecimalInteger;
  }

  lemma PrefixedParses(prefix: string, s: string, n: nat)
    requires IsHexPrefix(prefix) || IsBinaryPrefix(prefix)
    requires Spells(s, if IsHexPrefix(prefix) then 16 else 2, n) && n < I64_LIMIT
    ensures ParseInteger(prefix + s) == Some(n) && ParseInteger("-" + (prefix + s)) == Some(0 - n)
  {
    RadixParses(s, if IsHexPrefix(prefix) then 16 else 2, n);
    PrefixRead(prefix, s);
    var t := prefix + s;
    assert t[0] == '0' ==> |t| >= 2;
    hide StartsWith, RadixInteger, ParseInteger, Spells;
    SpelledParses(t, false, t, s, IsHexPrefix(prefix), n);
    SpelledParses("-" + t, true, t, s, IsHexPrefix(prefix), n);
  }

  /** Hexadecimal and binary literals, of either sign, denote the number they spell. */
  lemma RadixTextParses(n: nat, prefix: string)
    requires n < I64_LIMIT && (IsHexPrefix(prefix) || IsBinaryPrefix(prefix))
    ensures var digits := if IsHexPrefix(prefix) then HexText(n) else BinaryText(n);
      ParseInteger(prefix + digits) == Some(n) && ParseInteger("-" + (prefix + digits)) == Some(0 - n)
  {
    hide ParseInteger, Spells, HexText, BinaryText, IsHexPrefix, IsBinaryPrefix;
    HexTextSpells(n);
    BinaryTextSpells(n);
    PrefixedParses(prefix, if IsHexPrefix(prefix) then HexText(n) else BinaryText(n), n);
  }

  /** A printed target is a token, without comment or newline. */
  lemma IntTextIsToken(n: int)
    ensures IsToken(IntText(n)) && CommentStart(Outside, IntText(n)).None? && '\n' !in IntText(n)
  {
    PlainIsSolid(IntText(n));
  }

  lemma {:induction false} PlainIsSolid(s: string)
    requires forall i :: 0 <= i < |s| ==> '-' <= s[i] <= '9'
    ensures Solid(Outside, s) && Balanced(s) && CommentStart(Outside, s).None?
  {
    if s != [] { PlainIsSolid(s[1..]); }
  }

  // ----- identifiers -----

  predicate IsLetter(c: char) { 'a' <= c <= 'z' || 'A' <= c <= 'Z' || c == '_' }

  predicate IsIdentifier(s: string) {
    s != [] && IsLetter(s[0]) && forall i :: 0 <= i < |s| ==> IsLetter(s[i]) || '0' <= s[i] <= '9'
  }

  /** No symbol name is an integer literal. */
  lemma IdentifiersAreNotIntegers(s: string)
    requires IsIdentifier(s)
    ensures ParseInteger(s) == None
  {
    assert s[..1] == [s[0]];
    assert '.' !in s;
    IndexOfAbsent(s, '.');
    assert s[..|s|] == s;
    hide DigitsValue, IndexOf, RadixInteger;
    assert !AllDigits(s, 10) by { assert DigitValue(s[0]) >= 10; }
    assert |s| > 1 ==> s[..2][0] == s[0];
  }

  lemma {:induction false} IdentifierIsToken(s: string)
    requires forall i :: 0 <= i < |s| ==> IsLetter(s[i]) || '0' <= s[i] <= '9'
    ensures Solid(Outside, s) && Balanced(s) && CommentStart(Outside, s).None?
  {
    if s != [] { IdentifierIsToken(s[1..]); }
  }

  lemma {:induction false} QuietIsToken(s: string)
    requires forall i :: 0 <= i < |s| ==> '!' < s[i] <= '~' && s[i] != '"' && s[i] != '#'
    ensures Solid(Outside, s) && Balanced(s) && CommentStart(Outside, s).None?
  {
    if s != [] { QuietIsToken(s[1..]); }
  }

  lemma QuietReads(t: string)
    requires t != [] && forall i :: 0 <= i < |t| ==> '!' < t[i] <= '~' && t[i] != '"' && t[i] != '#'
    ensures CodePart(t) == t && CommentPart(t) == None && Tokenize(t) == [t]
  {
    QuietIsToken(t);
    SolidIsOneToken(Outside, [], t);
    assert [] + t == t;
  }

  /** A name and a colon alone on a line are a label of that name; without the colon they are an instruction. */
  lemma LabelLineReads(name: string)
    requires IsIdentifier(name)
    ensures ParseLine(name + ":") == ParsedLine(name + ":", None, Label(name))
    ensures ParseLine(name) == ParsedLine(name, None, Instruction(name, []))
  {
    QuietReads(name);
    QuietReads(name + ":");
    IdentifierEnds(name);
    hide IsIdentifier, CodePart, CommentPart, Tokens;
    assert [name][1..] == [];
    assert (name + ":")[..|name|] == name && (name + ":")[|name|] == ':';
  }

  lemma IdentifierEnds(name: string)
    requires IsIdentifier(name)
    ensures name != [] && name[|name| - 1] != ':'
  {}
}
