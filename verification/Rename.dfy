/**
 Renaming a symbol in the language server: the edits, what applying them does to the text and to the symbol table,
 and back.
 */
module Rename {
  import opened Prelude
  import opened Text
  import opened Literals
  import opened Symbols

  // ----- a line as tokens and the spaces between them -----

  datatype Part = Gap(space: char) | Tok(text: string)

  function Parts(q: Quote, token: string, s: string): seq<Part>
    decreases |s|
  {
    var flushed := if token == [] then [] else [Tok(token)];
    if s == [] then flushed
    else if q == Outside && IsWhitespace(s[0]) then flushed + [Gap(s[0])] + Parts(Outside, [], s[1..])
    else Parts(Next(q, s[0]), token + [s[0]], s[1..])
  }

  function PartText(p: Part): string { if p.Gap? then [p.space] else p.text }

  function Flatten(ps: seq<Part>): string { if ps == [] then [] else PartText(ps[0]) + Flatten(ps[1..]) }

  function Toks(ps: seq<Part>): seq<string> {
    if ps == [] then [] else (if ps[0].Tok? then [ps[0].text] else []) + Toks(ps[1..])
  }

  /** Tokens separated by spaces; only the last may leave a quote open. */
  ghost predicate Separated(ps: seq<Part>) {
    ps == [] ||
    (match ps[0]
     case Gap(c) => IsWhitespace(c) && Separated(ps[1..])
     case Tok(t) =>
       t != [] && Solid(Outside, t) && (ps[1..] == [] || (Balanced(t) && ps[1].Gap? && Separated(ps[1..]))))
  }

  lemma {:induction false} PartsFlatten(q: Quote, token: string, s: string)
    ensures Flatten(Parts(q, token, s)) == token + s
    ensures Toks(Parts(q, token, s)) == Tokens(q, token, s)
    decreases |s|
  {
    hide Toks, Flatten;
    if s == [] {
      OnePart(token);
      assert token + s == token;
    } else if q == Outside && IsWhitespace(s[0]) {
      var rest := Parts(Outside, [], s[1..]);
      PartsFlatten(Outside, [], s[1..]);
      assert s == [s[0]] + s[1..];
      GapFlattens(token, s[0], rest);
    } else {
      PartsFlatten(Next(q, s[0]), token + [s[0]], s[1..]);
      assert token + [s[0]] + s[1..] == token + s;
    }
  }

  lemma OnePart(token: string)
    ensures Toks([]) == [] && Flatten([]) == []
    ensures Toks([Tok(token)]) == [token] && Flatten([Tok(token)]) == token
  {
    assert [Tok(token)][1..] == [];
  }

  lemma GapFlattens(token: string, c: char, rest: seq<Part>)
    ensures var ps := (if token == [] then [] else [Tok(token)]) + [Gap(c)] + rest;
      Flatten(ps) == token + [c] + Flatten(rest) && Toks(ps) == (if token == [] then [] else [token]) + Toks(rest)
  {
    var tail := [Gap(c)] + rest;
    assert tail[1..] == rest && Flatten(tail) == [c] + Flatten(rest) && Toks(tail) == Toks(rest);
    if token == [] {
      assert [] + [Gap(c)] + rest == tail;
    } else {
      assert [Tok(token)] + [Gap(c)] + rest == [Tok(token)] + tail && ([Tok(token)] + tail)[1..] == tail;
    }
  }

  lemma {:induction false} PartsAreSeparated(q: Quote, token: string, s: string)
    requires Solid(Outside, token) && Scan(Outside, token) == q
    ensures Separated(Parts(q, token, s))
    decreases |s|
  {
    if s == [] {
      if token != [] { assert [Tok(token)][1..] == []; }
    } else if q == Outside && IsWhitespace(s[0]) {
      PartsAreSeparated(Outside, [], s[1..]);
      var rest := Parts(Outside, [], s[1..]);
      var tail := [Gap(s[0])] + rest;
      assert tail[1..] == rest && Separated(tail);
      if token == [] {
        assert [] + [Gap(s[0])] + rest == tail;
      } else {
        assert [Tok(token)] + [Gap(s[0])] + rest == [Tok(token)] + tail && ([Tok(token)] + tail)[1..] == tail &&
            ([Tok(token)] + tail)[1] == Gap(s[0]);
      }
    } else {
      SolidAppend(Outside, token, [s[0]]);
      ScanAppend(Outside, token, [s[0]]);
      assert [s[0]][1..] == [];
      PartsAreSeparated(Next(q, s[0]), token + [s[0]], s[1..]);
    }
  }

  /** Scanning the characters of a token just collects them. */
  lemma {:induction false} PartsOfToken(q: Quote, token: string, t: string, rest: string)
    requires Solid(q, t)
    ensures Parts(q, token, t + rest) == Parts(Scan(q, t), token + t, rest)
    decreases |t|
  {
    if t == [] {
      assert t + rest == rest && token + t == token;
    } else {
      assert (t + rest)[0] == t[0] && (t + rest)[1..] == t[1..] + rest;
      PartsOfToken(Next(q, t[0]), token + [t[0]], t[1..], rest);
      assert token + [t[0]] + t[1..] == token + t;
    }
  }

  /** Separated parts are read back from their text. */
  lemma {:induction false} PartsOfFlatten(ps: seq<Part>)
    requires Separated(ps)
    ensures Parts(Outside, [], Flatten(ps)) == ps
    decreases |ps|
  {
    if ps != [] {
      var rest := ps[1..];
      match ps[0]
      case Gap(c) =>
        PartsOfFlatten(rest);
        var s := Flatten(ps);
        assert s == [c] + Flatten(rest) && s[1..] == Flatten(rest);
        assert ps == [Gap(c)] + rest && [] + [Gap(c)] + rest == ps;
      case Tok(t) =>
        PartsOfToken(Outside, [], t, Flatten(rest));
        assert [] + t == t;
        if rest == [] {
          assert Flatten(rest) == [] && ps == [Tok(t)];
        } else {
          PartsOfFlatten(rest);
          AfterToken(t, rest);
          assert ps == [Tok(t)] + rest;
        }
    }
  }

  lemma AfterToken(t: string, rest: seq<Part>)
    requires t != [] && rest != [] && rest[0].Gap? && IsWhitespace(rest[0].space)
    requires Parts(Outside, [], Flatten(rest)) == rest
    ensures Parts(Outside, t, Flatten(rest)) == [Tok(t)] + rest
  {
    var s := Flatten(rest);
    var c := rest[0].space;
    assert s == [c] + Flatten(rest[1..]) && s[0] == c;
    var tail := Parts(Outside, [], s[1..]);
    assert [] + [Gap(c)] + tail == rest;
    assert [Tok(t)] + [Gap(c)] + tail == [Tok(t)] + ([Gap(c)] + tail) && [Gap(c)] + tail == rest;
  }

  // ----- renaming a line -----

  /** A lone token ending in a colon is a label. */
  predicate IsLabelLine(ps: seq<Part>) { Classify(Toks(ps)).Label? }

  function RenameToken(lone: bool, first: bool, t: string, former: string, latter: string): string {
    if lone then (if t == former + ":" then latter + ":" else t)
    else if !first && t == former then latter
    else t
  }

  /** Every occurrence renamed: the label's name, or the operands; never the mnemonic. */
  function RenameParts(ps: seq<Part>, lone: bool, first: bool, former: string, latter: string): (r: seq<Part>)
    ensures |r| == |ps|
  {
    if ps == [] then []
    else if ps[0].Gap? then [ps[0]] + RenameParts(ps[1..], lone, first, former, latter)
    else [Tok(RenameToken(lone, first, ps[0].text, former, latter))] + RenameParts(ps[1..], lone, false, former, latter)
  }

  function CodeParts(text: string): seq<Part> { Parts(Outside, [], CodePart(text)) }

  function RenameLine(text: string, former: string, latter: string): string {
    var ps := CodeParts(text);
    Flatten(RenameParts(ps, IsLabelLine(ps), true, former, latter)) + if CommentPart(text).Some?
      then CommentPart(text).value else []
  }

  // ----- edits -----

  /** A span of the line to be replaced by the new name. */
  datatype Edit = Edit(start: nat, end: nat)

  function HeadEdit(p: Part, lone: bool, first: bool, former: string, position: nat): seq<Edit> {
    if p.Gap? then []
    else if lone then (if p.text == former + ":" then [Edit(position, position + |former|)] else [])
    else if !first && p.text == former then [Edit(position, position + |former|)]
    else []
  }

  function StillFirst(p: Part, first: bool): bool { if p.Gap? then first else false }

  function EditsOf(ps: seq<Part>, lone: bool, first: bool, former: string, position: nat): seq<Edit> {
    if ps == [] then []
    else HeadEdit(ps[0], lone, first, former, position)
         + EditsOf(ps[1..], lone, StillFirst(ps[0], first), former, position + |PartText(ps[0])|)
  }

  /** The text from `position` on, with every edit's span replaced. */
  function ApplyEdits(text: string, edits: seq<Edit>, position: nat, latter: string): string {
    if edits == [] || !(position <= edits[0].start <= edits[0].end <= |text|) then
      (if position <= |text| then text[position..] else [])
    else text[position..edits[0].start] + latter + ApplyEdits(text, edits[1..], edits[0].end, latter)
  }

  /** The edits of a line whose text starts at `position`. */
  function LineEdits(text: string, former: string, position: nat): seq<Edit> {
    var ps := CodeParts(text);
    EditsOf(ps, IsLabelLine(ps), true, former, position)
  }

  predicate Within(edits: seq<Edit>, low: nat, high: nat) {
    forall i :: 0 <= i < |edits| ==> low <= edits[i].start <= edits[i].end <= high
  }

  lemma {:induction false} EditsInOrder(ps: seq<Part>, lone: bool, first: bool, former: string, position: nat)
    ensures Within(EditsOf(ps, lone, first, former, position), position, position + |Flatten(ps)|)
  {
    if ps != [] {
      EditsInOrder(ps[1..], lone, StillFirst(ps[0], first), former, position + |PartText(ps[0])|);
    }
  }

  /** The first part renamed. */
  function RenamedPart(p: Part, lone: bool, first: bool, former: string, latter: string): string {
    if p.Gap? then [p.space] else RenameToken(lone, first, p.text, former, latter)
  }

  lemma ApplyOne(text: string, e: Edit, rest: seq<Edit>, position: nat, latter: string)
    requires position <= e.start <= e.end <= |text|
    ensures ApplyEdits(text, [e] + rest, position, latter) == text[position..e.start] + latter +
        ApplyEdits(text, rest, e.end, latter)
  {
    assert ([e] + rest)[1..] == rest;
  }

  lemma ApplyNone(text: string, position: nat, latter: string)
    requires position <= |text|
    ensures ApplyEdits(text, [], position, latter) == text[position..]
  {}

  /** Text before the first edit is copied. */
  lemma CopyBefore(text: string, edits: seq<Edit>, position: nat, next: nat, latter: string)
    requires position <= next <= |text| && Within(edits, next, |text|)
    ensures ApplyEdits(text, edits, position, latter) == text[position..next] + ApplyEdits(text, edits, next, latter)
  {
    hide ApplyEdits;
    if edits == [] {
      ApplyNone(text, position, latter);
      ApplyNone(text, next, latter);
      assert text[position..] == text[position..next] + text[next..];
    } else {
      var e, rest := edits[0], edits[1..];
      assert edits == [e] + rest;
      ApplyOne(text, e, rest, position, latter);
      ApplyOne(text, e, rest, next, latter);
      assert text[position..e.start] == text[position..next] + text[next..e.start];
    }
  }

  /**
   Applying the edits of a line renames its occurrences and leaves everything else in place; later edits go on from
   its end.
   */
  lemma {:induction false} EditsRename(text: string, position: nat, ps: seq<Part>, after: string, lone: bool,
                          first: bool,
                                       former: string, latter: string, later: seq<Edit>, end: nat)
    requires position <= |text| && text[position..] == Flatten(ps) + after && end == position + |Flatten(ps)|
    requires end <= |text| && Within(later, end, |text|)
    ensures ApplyEdits(text, EditsOf(ps, lone, first, former, position) + later, position, latter)
         == Flatten(RenameParts(ps, lone, first, former, latter)) + ApplyEdits(text, later, end, latter)
    decreases |ps|
  {
    if ps == [] {
      assert [] + later == later &&
          [] + ApplyEdits(text, later, position, latter) == ApplyEdits(text, later, position, latter);
    } else {
      hide ApplyEdits, EditsOf, HeadEdit, RenameParts, StillFirst, Within, PartText, Flatten;
      var next := position + |PartText(ps[0])|;
      FlattenHead(ps);
      TextSplits(text, position, PartText(ps[0]), Flatten(ps[1..]), after);
      EditsRename(text, next, ps[1..], after, lone, StillFirst(ps[0], first), former, latter, later, end);
      var rest := EditsOf(ps[1..], lone, StillFirst(ps[0], first), former, next);
      EditsInOrder(ps[1..], lone, StillFirst(ps[0], first), former, next);
      WithinBoth(rest, later, next, end, |text|);
      EditsStep(text, position, ps, lone, first, former, latter, rest, later, ApplyEdits(text, later, end, latter));
    }
  }

  lemma EditsStep(text: string, position: nat, ps: seq<Part>, lone: bool, first: bool, former: string, latter: string,
                  rest: seq<Edit>, later: seq<Edit>, tail: string)
    requires ps != [] && position + |PartText(ps[0])| <= |text|
    requires text[position..position + |PartText(ps[0])|] == PartText(ps[0])
    requires Within(rest + later, position + |PartText(ps[0])|, |text|)
    requires rest == EditsOf(ps[1..], lone, StillFirst(ps[0], first), former, position + |PartText(ps[0])|)
    requires ApplyEdits(text, rest + later, position + |PartText(ps[0])|, latter)
          == Flatten(RenameParts(ps[1..], lone, StillFirst(ps[0], first), former, latter)) + tail
    ensures ApplyEdits(text, EditsOf(ps, lone, first, former, position) + later, position, latter)
         == Flatten(RenameParts(ps, lone, first, former, latter)) + tail
  {
    hide ApplyEdits, HeadEdit, RenameParts, RenamedPart, StillFirst, Within, PartText, Flatten, EditsOf;
    var head := HeadEdit(ps[0], lone, first, former, position);
    EditsSplit(ps, lone, first, former, position);
    OneEdit(text, ps[0], lone, first, former, position, position + |PartText(ps[0])|, rest + later, latter);
    assert (head + rest) + later == head + (rest + later);
    RenamedHead(ps, lone, first, former, latter, tail);
  }

  lemma WithinBoth(rest: seq<Edit>, later: seq<Edit>, low: nat, middle: nat, high: nat)
    requires Within(rest, low, middle) && Within(later, middle, high) && low <= middle <= high
    ensures Within(rest + later, low, high)
  {}

  lemma FlattenHead(ps: seq<Part>)
    requires ps != []
    ensures Flatten(ps) == PartText(ps[0]) + Flatten(ps[1..])
  {}

  lemma EditsSplit(ps: seq<Part>, lone: bool, first: bool, former: string, position: nat)
    requires ps != []
    ensures EditsOf(ps, lone, first, former, position) ==
      HeadEdit(ps[0], lone, first, former, position) +
        EditsOf(ps[1..], lone, StillFirst(ps[0], first), former, position + |PartText(ps[0])|)
  {}

  lemma TextSplits(text: string, position: nat, part: string, rest: string, after: string)
    requires position <= |text| && text[position..] == part + rest + after
    ensures var next := position + |part|;
      next + |rest| <= |text| && text[position..next] == part && text[next..] == rest + after
  {
    var t, next := text[position..], position + |part|;
    assert t == part + (rest + after) && |t| == |text| - position;
    assert text[position..next] == t[..|part|] && text[next..] == t[|part|..];
  }

  lemma RenamedHead(ps: seq<Part>, lone: bool, first: bool, former: string, latter: string, after: string)
    requires ps != []
    ensures Flatten(RenameParts(ps, lone, first, former, latter)) + after
         == RenamedPart(ps[0], lone, first, former, latter)
            + (Flatten(RenameParts(ps[1..], lone, StillFirst(ps[0], first), former, latter)) + after)
  {
    var rest := RenameParts(ps[1..], lone, StillFirst(ps[0], first), former, latter);
    var r := RenameParts(ps, lone, first, former, latter);
    assert r[1..] == rest && Flatten(r) == PartText(r[0]) + Flatten(rest);
  }

  /** What the edits of the first part do. */
  lemma OneEdit(text: string, p: Part, lone: bool, first: bool, former: string, position: nat, next: nat,
                later: seq<Edit>, latter: string)
    requires next == position + |PartText(p)| <= |text| && text[position..next] == PartText(p)
    requires Within(later, next, |text|)
    ensures ApplyEdits(text, HeadEdit(p, lone, first, former, position) + later, position, latter)
         == RenamedPart(p, lone, first, former, latter) + ApplyEdits(text, later, next, latter)
  {
    hide ApplyEdits, Within;
    if p.Tok? && lone && p.text == former + ":" {
      LabelEdit(text, former, later, position, latter);
    } else if p.Tok? && !lone && !first && p.text == former {
      OperandEdit(text, later, position, next, latter);
    } else {
      assert [] + later == later;
      CopyBefore(text, later, position, next, latter);
    }
  }

  lemma OperandEdit(text: string, later: seq<Edit>, position: nat, next: nat, latter: string)
    requires position <= next <= |text|
    ensures ApplyEdits(text, [Edit(position, next)] + later, position, latter) == latter +
        ApplyEdits(text, later, next, latter)
  {
    hide ApplyEdits;
    ApplyOne(text, Edit(position, next), later, position, latter);
    assert text[position..position] == [] && [] + latter == latter;
  }

  lemma LabelEdit(text: string, former: string, later: seq<Edit>, position: nat, latter: string)
    requires var next := position + |former| + 1;
      next <= |text| && text[position..next] == former + ":" && Within(later, next, |text|)
    ensures var next := position + |former| + 1;
      ApplyEdits(text, [Edit(position, next - 1)] + later, position, latter) == latter + ":" +
        ApplyEdits(text, later, next, latter)
  {
    hide ApplyEdits;
    var next := position + |former| + 1;
    ApplyOne(text, Edit(position, next - 1), later, position, latter);
    CopyBefore(text, later, next - 1, next, latter) by { WithinFrom(later, next - 1, next, |text|); }
    assert (former + ":")[|former|] == ':' && text[position..next][|former|] == text[next - 1];
    assert text[next - 1..next] == ":" && text[position..position] == [] && [] + latter == latter;
    Regroup(latter, ":", ApplyEdits(text, later, next, latter));
  }

  lemma Regroup(a: string, b: string, c: string)
    ensures a + (b + c) == a + b + c
  {}

  lemma PartsEditsApply(text: string, position: nat, ps: seq<Part>, comment: string, after: string, lone: bool,
                        former: string, latter: string, later: seq<Edit>, next: nat)
    requires position <= |text| && text[position..] == Flatten(ps) + (comment + after)
    requires next == position + |Flatten(ps)| + |comment| <= |text| && Within(later, next, |text|)
    ensures ApplyEdits(text, EditsOf(ps, lone, true, former, position) + later, position, latter)
         == Flatten(RenameParts(ps, lone, true, former, latter)) + comment + ApplyEdits(text, later, next, latter)
  {
    hide ApplyEdits, EditsOf, RenameParts, Within, Flatten;
    var end := position + |Flatten(ps)|;
    WithinFrom(later, end, next, |text|);
    EditsRename(text, position, ps, comment + after, lone, true, former, latter, later, end);
    CopyBefore(text, later, end, next, latter);
    assert text[end..next] == comment by {
      assert text[end..] == text[position..][|Flatten(ps)|..] == comment + after;
      CommentSpan(text, end, comment, after);
    }
    Regroup(Flatten(RenameParts(ps, lone, true, former, latter)), comment, ApplyEdits(text, later, next, latter));
  }

  /** The edits of a line that starts at `position`, with the edits after it: its occurrences renamed, then the rest. */
  lemma LineEditsApply(text: string, position: nat, line: string, after: string, former: string, latter: string,
                       later: seq<Edit>)
    requires position <= |text| && text[position..] == line + after
    requires position + |line| <= |text| && Within(later, position + |line|, |text|)
    ensures ApplyEdits(text, LineEdits(line, former, position) + later, position, latter)
         == RenameLine(line, former, latter) + ApplyEdits(text, later, position + |line|, latter)
  {
    hide ApplyEdits, EditsOf, RenameParts, Parts, CommentStart, Within, Flatten, IsLabelLine, CodePart, CommentPart;
    var ps := CodeParts(line);
    PartsFlatten(Outside, [], CodePart(line));
    assert [] + CodePart(line) == CodePart(line);
    var comment := if CommentPart(line).Some? then CommentPart(line).value else [];
    assert line == CodePart(line) + comment by { CodeAndComment(line); }
    assert line + after == Flatten(ps) + (comment + after);
    PartsEditsApply(text, position, ps, comment, after, IsLabelLine(ps), former, latter, later, position + |line|);
  }

  lemma CodeAndComment(line: string)
    ensures line == CodePart(line) + if CommentPart(line).Some? then CommentPart(line).value else []
  {}

  lemma WithinFrom(edits: seq<Edit>, low: nat, next: nat, high: nat)
    requires Within(edits, next, high) && low <= next
    ensures Within(edits, low, high)
  {}

  lemma CommentSpan(text: string, end: nat, comment: string, after: string)
    requires end <= |text| && text[end..] == comment + after && end + |comment| <= |text|
    ensures text[end..end + |comment|] == comment
  {
    assert text[end..end + |comment|] == text[end..][..|comment|];
  }

  /** The edits of a line do what renaming its occurrences means. */
  lemma RenameEditsApply(text: string, former: string, latter: string)
    ensures ApplyEdits(text, LineEdits(text, former, 0), 0, latter) == RenameLine(text, former, latter)
  {
    hide ApplyEdits, EditsOf, RenameParts, Parts, CommentStart;
    assert text[0..] == text + [];
    LineEditsApply(text, 0, text, [], former, latter, []);
    ApplyNone(text, |text|, latter);
    assert LineEdits(text, former, 0) + [] == LineEdits(text, former, 0);
    assert RenameLine(text, former, latter) + [] == RenameLine(text, former, latter);
  }

  // ----- renamed parts -----

  /** What a renamed token must be: like the old one, a token without a comment. */
  lemma RenamedToken(lone: bool, first: bool, t: string, former: string, latter: string)
    requires IsIdentifier(former) && IsIdentifier(latter)
    ensures var u := RenameToken(lone, first, t, former, latter);
      u == t || (IsToken(t) && IsToken(u) && CommentStart(Outside, t).None? && CommentStart(Outside, u).None?)
  {
    IdentifierIsToken(former);
    IdentifierIsToken(latter);
    LabelIsToken(former);
    LabelIsToken(latter);
  }

  lemma LabelIsToken(name: string)
    requires IsIdentifier(name)
    ensures IsToken(name + ":") && CommentStart(Outside, name + ":").None?
  {
    IdentifierIsToken(name);
    SolidAppend(Outside, name, ":");
    ScanAppend(Outside, name, ":");
    CommentAppend(Outside, name, ":");
    assert ":"[1..] == "" && Scan(Outside, ":") == Outside && Solid(Outside, ":");
  }

  lemma {:induction false} RenamedIsSeparated(ps: seq<Part>, lone: bool, first: bool, former: string, latter: string)
    requires Separated(ps) && IsIdentifier(former) && IsIdentifier(latter)
    ensures Separated(RenameParts(ps, lone, first, former, latter))
    ensures Scan(Outside, Flatten(RenameParts(ps, lone, first, former, latter))) == Scan(Outside, Flatten(ps))
    ensures CommentStart(Outside, Flatten(ps)).None? ==>
        CommentStart(Outside, Flatten(RenameParts(ps, lone, first, former, latter))).None?
  {
    hide IsIdentifier, RenameToken, IsToken;
    if ps != [] {
      var r := RenameParts(ps, lone, first, former, latter);
      var rest := RenameParts(ps[1..], lone, if ps[0].Gap? then first else false, former, latter);
      assert r[1..] == rest && r == [r[0]] + rest;
      if ps[1..] != [] { RenamedIsSeparated(ps[1..], lone, if ps[0].Gap? then first else false, former, latter); }
      FlattenHead(ps);
      FlattenHead(r);
      HeadScan(ps[0], r[0], Flatten(ps[1..]), Flatten(rest)) by {
        if ps[0].Tok? {
          RenamedToken(lone, first, ps[0].text, former, latter);
          TokenParts(ps[0].text);
          TokenParts(r[0].text);
        }
        assert Flatten([]) == [];
      }
      if ps[0].Tok? {
        RenamedToken(lone, first, ps[0].text, former, latter);
        TokenParts(ps[0].text);
        TokenParts(r[0].text);
      }
    }
  }

  lemma TokenParts(t: string)
    ensures IsToken(t) ==> t != [] && Solid(Outside, t) && Balanced(t)
  {}

  /** Replacing a token by another, both without comments and with closed quotes, changes no later scan. */
  lemma HeadScan(a: Part, b: Part, rest: string, rest': string)
    requires b == a ||
        (a.Tok? && b.Tok? && Balanced(a.text) && Balanced(b.text) && CommentStart(Outside, a.text).None? &&
          CommentStart(Outside, b.text).None?)
    requires a.Gap? ==> IsWhitespace(a.space)
    requires Scan(Outside, rest') == Scan(Outside, rest)
    requires (CommentStart(Outside, rest).None? ==> CommentStart(Outside, rest').None?)
    requires a.Tok? && !Balanced(a.text) ==> rest == [] && rest' == []
    ensures Scan(Outside, PartText(b) + rest') == Scan(Outside, PartText(a) + rest)
    ensures CommentStart(Outside, PartText(a) + rest).None? ==> CommentStart(Outside, PartText(b) + rest').None?
  {
    var s, t := PartText(a), PartText(b);
    ScanAppend(Outside, s, rest);
    ScanAppend(Outside, t, rest');
    if a.Gap? { assert [a.space][1..] == [] && Scan(Outside, s) == Outside && CommentStart(Outside, s).None?; }
    if CommentStart(Outside, s + rest).None? {
      CommentOfPrefix(Outside, s, rest);
      CommentAppend(Outside, s, rest);
      CommentAppend(Outside, t, rest');
    }
  }

  /** The new name appears nowhere. */
  predicate Absent(ps: seq<Part>, name: string) {
    forall i :: 0 <= i < |ps| && ps[i].Tok? ==> ps[i].text != name && ps[i].text != name + ":"
  }

  lemma {:induction false} RenameBackParts(ps: seq<Part>, lone: bool, first: bool, former: string, latter: string)
    requires Absent(ps, latter)
    ensures RenameParts(RenameParts(ps, lone, first, former, latter), lone, first, latter, former) == ps
  {
    if ps != [] {
      var r := RenameParts(ps, lone, first, former, latter);
      var first' := if ps[0].Gap? then first else false;
      assert r[1..] == RenameParts(ps[1..], lone, first', former, latter);
      RenameBackParts(ps[1..], lone, first', former, latter);
      BackToken(ps[0], lone, first, former, latter);
      assert ps == [ps[0]] + ps[1..];
    }
  }

  lemma BackToken(p: Part, lone: bool, first: bool, former: string, latter: string)
    requires Absent([p], latter)
    ensures p.Tok? ==>
        RenameToken(lone, first, RenameToken(lone, first, p.text, former, latter), latter, former) == p.text
  {
    assert [p][0] == p;
    LabelsDiffer(former, latter);
  }

  lemma LabelsDiffer(a: string, b: string)
    ensures a + ":" == b + ":" ==> a == b
    ensures forall t :: t == a + ":" ==> |t| > 0
  {
    assert a == (a + ":")[..|a + ":"| - 1] && b == (b + ":")[..|b + ":"| - 1];
  }

  // ----- renamed kinds -----

  function RenameOperand(t: string, former: string, latter: string): string { if t == former then latter else t }

  function RenameOperands(ts: seq<string>, former: string, latter: string): (r: seq<string>)
    ensures |r| == |ts|
  {
    seq(|ts|, i requires 0 <= i < |ts| => RenameOperand(ts[i], former, latter))
  }

  function RenameKind(k: LineKind, former: string, latter: string): LineKind {
    match k
    case Empty => Empty
    case Label(name) => Label(RenameOperand(name, former, latter))
    case Instruction(m, operands) => Instruction(m, RenameOperands(operands, former, latter))
  }

  lemma {:induction false} RenamedOperandToks(ps: seq<Part>, former: string, latter: string)
    ensures Toks(RenameParts(ps, false, false, former, latter)) == RenameOperands(Toks(ps), former, latter)
  {
    if ps != [] {
      var r := RenameParts(ps, false, false, former, latter);
      assert r[1..] == RenameParts(ps[1..], false, false, former, latter);
      RenamedOperandToks(ps[1..], former, latter);
    }
  }

  lemma {:induction false} RenamedToks(ps: seq<Part>, lone: bool, former: string, latter: string)
    requires lone ==> |Toks(ps)| == 1
    ensures var ts, us := Toks(ps), Toks(RenameParts(ps, lone, true, former, latter));
      if ts == [] then us == []
      else if lone then us == [RenameToken(true, true, ts[0], former, latter)]
      else us == [ts[0]] + RenameOperands(ts[1..], former, latter)
  {
    if ps != [] {
      var r := RenameParts(ps, lone, true, former, latter);
      if ps[0].Gap? {
        assert r[1..] == RenameParts(ps[1..], lone, true, former, latter);
        RenamedToks(ps[1..], lone, former, latter);
      } else {
        assert r[1..] == RenameParts(ps[1..], lone, false, former, latter);
        if lone {
          assert Toks(ps)[1..] == Toks(ps[1..]) && Toks(ps[1..]) == [];
          NoToks(ps[1..], lone, former, latter);
        } else {
          RenamedOperandToks(ps[1..], former, latter);
          assert Toks(ps)[1..] == Toks(ps[1..]);
        }
      }
    }
  }

  lemma {:induction false} NoToks(ps: seq<Part>, lone: bool, former: string, latter: string)
    requires Toks(ps) == []
    ensures Toks(RenameParts(ps, lone, false, former, latter)) == []
  {
    if ps != [] {
      assert RenameParts(ps, lone, false, former, latter)[1..] == RenameParts(ps[1..], lone, false, former, latter);
      NoToks(ps[1..], lone, former, latter);
    }
  }

  lemma RenamedLabelToken(t: string, former: string, latter: string)
    requires t != [] && t[|t| - 1] == ':'
    ensures var u := RenameToken(true, true, t, former, latter);
      u != [] && u[|u| - 1] == ':' && u[..|u| - 1] == RenameOperand(t[..|t| - 1], former, latter)
  {
    assert t == t[..|t| - 1] + ":";
    assert (latter + ":")[..|latter|] == latter && (former + ":")[..|former|] == former;
  }

  /** The kind of a renamed line is its kind renamed, and a line stays a label or not. */
  lemma RenamedKind(ps: seq<Part>, former: string, latter: string)
    ensures var r := RenameParts(ps, IsLabelLine(ps), true, former, latter);
      Classify(Toks(r)) == RenameKind(Classify(Toks(ps)), former, latter) && IsLabelLine(r) == IsLabelLine(ps)
  {
    var ts := Toks(ps);
    RenamedToks(ps, IsLabelLine(ps), former, latter);
    if ts != [] {
      if IsLabelLine(ps) {
        RenamedLabelToken(ts[0], former, latter);
      } else {
        assert ([ts[0]] + RenameOperands(ts[1..], former, latter))[1..] == RenameOperands(ts[1..], former, latter);
      }
    }
  }

  // ----- main results -----

  /** A renamed line reads as the parts of the line renamed, with the same comment. */
  lemma RenamedLineReads(text: string, former: string, latter: string)
    requires IsIdentifier(former) && IsIdentifier(latter)
    ensures CodeParts(RenameLine(text, former, latter)) ==
        RenameParts(CodeParts(text), IsLabelLine(CodeParts(text)), true, former, latter)
    ensures CommentPart(RenameLine(text, former, latter)) == CommentPart(text)
  {
    hide RenameParts, Parts, IsIdentifier, Separated;
    var ps := CodeParts(text);
    PartsAreSeparated(Outside, [], CodePart(text));
    PartsFlatten(Outside, [], CodePart(text));
    assert [] + CodePart(text) == CodePart(text);
    CodeHasNoComment(Outside, text);
    assert CommentStart(Outside, CodePart(text)).None?;
    var r := RenameParts(ps, IsLabelLine(ps), true, former, latter);
    RenamedIsSeparated(ps, IsLabelLine(ps), true, former, latter);
    PartsOfFlatten(r);
    RenamedText(Flatten(r), text);
  }

  lemma RenamedText(code: string, text: string)
    requires CommentStart(Outside, code).None? && Scan(Outside, code) == Scan(Outside, CodePart(text))
    ensures var s := code + if CommentPart(text).Some? then CommentPart(text).value else [];
      CodePart(s) == code && CommentPart(s) == CommentPart(text)
  {
    if CommentPart(text).Some? {
      var c := CommentPart(text).value;
      assert c[0] == '#' && CommentStart(Outside, c) == Some(0);
      CommentAppend(Outside, code, c);
      assert (code + c)[..|code|] == code && (code + c)[|code|..] == c;
    } else {
      assert code + [] == code;
    }
  }

  /** Renaming changes a line's kind by the name only. */
  lemma RenameChangesKind(text: string, former: string, latter: string)
    requires IsIdentifier(former) && IsIdentifier(latter)
    ensures ParseLine(RenameLine(text, former, latter)).kind == RenameKind(ParseLine(text).kind, former, latter)
    ensures ParseLine(RenameLine(text, former, latter)).comment == ParseLine(text).comment
  {
    hide RenameParts, Parts, IsIdentifier, RenameKind, Classify, RenameLine;
    RenamedLineReads(text, former, latter);
    PartsFlatten(Outside, [], CodePart(text));
    PartsFlatten(Outside, [], CodePart(RenameLine(text, former, latter)));
    RenamedKind(CodeParts(text), former, latter);
  }

  /** Renaming to a name the line does not contain, and back, restores the line exactly. */
  lemma RenameAndBack(text: string, former: string, latter: string)
    requires IsIdentifier(former) && IsIdentifier(latter) && Absent(CodeParts(text), latter)
    ensures RenameLine(RenameLine(text, former, latter), latter, former) == text
  {
    hide RenameParts, Parts, IsIdentifier, IsLabelLine, Absent, CommentStart;
    var ps := CodeParts(text);
    RenamedLineReads(text, former, latter);
    RenamedKind(ps, former, latter);
    RenameBackParts(ps, IsLabelLine(ps), true, former, latter);
    PartsFlatten(Outside, [], CodePart(text));
    assert [] + CodePart(text) == CodePart(text);
    assert text == CodePart(text) + if CommentPart(text).Some? then CommentPart(text).value else [];
  }

  function RenameSymbol(s: Symbol, former: string, latter: string): Symbol {
    s.(value := if s.value.Some? then Some(RenameOperand(s.value.value, former, latter)) else None)
  }

  function RenameProgram(p: seq<LineKind>, former: string, latter: string): (r: seq<LineKind>)
    ensures |r| == |p|
  {
    seq(|p|, i requires 0 <= i < |p| => RenameKind(p[i], former, latter))
  }

  lemma RenamedDeclares(k: LineKind, line: nat, former: string, latter: string)
    ensures Declared(RenameKind(k, former, latter), line) ==
      match Declared(k, line)
      case None => None
      case Some((name, symbol)) => Some((RenameOperand(name, former, latter), RenameSymbol(symbol, former, latter)))
  {}

  /** The symbol table changes by the name only: the symbol under its new name, every other where it was. */
  lemma {:induction false} RenamedTable(p: seq<LineKind>, former: string, latter: string, name: string)
    requires IsIdentifier(former) && IsIdentifier(latter) && former != latter
    requires forall i :: 0 <= i < |p| && Declared(p[i], i).Some? ==> Declared(p[i], i).value.0 != latter
    ensures var table, table' := Collect(p), Collect(RenameProgram(p, former, latter));
      && (former in table <==> latter in table') && former !in table'
      && (former in table ==> table'[latter] == RenameSymbol(table[former], former, latter))
      && (name != former && name != latter ==>
            (name in table <==> name in table') &&
              (name in table ==> table'[name] == RenameSymbol(table[name], former, latter)))
  {
    hide IsIdentifier, RenameKind, RenameSymbol, Declared;
    if p != [] {
      var m := |p| - 1;
      var q := RenameProgram(p, former, latter);
      assert q[..m] == RenameProgram(p[..m], former, latter);
      RenamedTable(p[..m], former, latter, name);
      RenamedDeclares(p[m], m, former, latter);
    }
  }
}
