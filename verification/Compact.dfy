/** Compact builds: defines inlined, private aliases shortened, labels replaced by line numbers. */
module Compact {
  import opened Prelude
  import opened Text
  import opened Literals
  import opened Symbols
  import opened Machine
  import opened Relinking
  import opened Carrying
  import opened Words
  import opened Lines
  import opened Readable

  // ----- names -----

  /** The replacement of every substituted name. */
  datatype Renaming = Renaming(defines: Values, aliases: Values)

  function RenamingOf(p: seq<LineKind>): Renaming {
    Renaming(Defines(Collect(p)), ShortNames(PrivateAliases(p), Collect(p).Keys))
  }

  function Replacements(names: Renaming): Substitution { names.defines + names.aliases }

  predicate IsOperand(p: seq<LineKind>, t: string) {
    exists i :: 0 <= i < |p| && p[i].Instruction? && t in p[i].operands
  }

  /** A label that only absolute branches mention. */
  predicate Removable(p: seq<LineKind>, name: string) {
    && IsLabelSymbol(Collect(p), name)
    && forall i :: 0 <= i < |p| && p[i].Instruction? && name in p[i].operands ==> IsAbsoluteBranch(p[i].mnemonic)
  }

  function RemovableLabels(p: seq<LineKind>): set<string> { set name | name in Collect(p) && Removable(p, name) }

  // ----- stages -----

  /** Lines passed through `f`, which may drop or rewrite each. */
  function FilterMap(f: OutputLine -> Option<OutputLine>, output: seq<OutputLine>): seq<OutputLine> {
    if output == [] then []
    else
      var n := |output| - 1;
      FilterMap(f, output[..n]) + match f(output[n]) case None => [] case Some(line) => [line]
  }

  function SubstituteLine(names: Renaming, line: OutputLine): Option<OutputLine> {
    if line.mnemonic == Some("define") && line.operands != [] && line.operands[0] in names.defines then None
    else
      var r := Replacements(names);
      var text := ReplaceTokens(line.text, r);
      if text == [] then None else Some(line.(text := text, operands := SubAll(r, line.operands)))
  }

  function RetainLine(removed: set<nat>, line: OutputLine): Option<OutputLine> {
    if line.sourceLine in removed then None else Some(line)
  }

  /** The declaration lines of removable labels. */
  function LabelLines(p: seq<LineKind>): set<nat> {
    set name | name in RemovableLabels(p) :: Collect(p)[name].line
  }

  function Surviving(raw: seq<string>): seq<OutputLine> {
    var p := ProgramOf(raw);
    FilterMap(line => RetainLine(LabelLines(p), line),
      FilterMap(line => SubstituteLine(RenamingOf(p), line), KeptLines(raw)))
  }

  /** Does the last operand of this line become a number? */
  predicate NamesRemoved(removable: set<string>, line: OutputLine) {
    && line.mnemonic.Some? && IsAbsoluteBranch(line.mnemonic.value)
    && line.operands != [] && line.operands[|line.operands| - 1] in removable
  }

  function RelabelLine(table: Table, removable: set<string>, lineMap: seq<Option<nat>>,
                       line: OutputLine): Result<OutputLine, BuildError>
    requires removable <= table.Keys
  {
    if !NamesRemoved(removable, line) then Ok(line)
    else
      var last := |line.operands| - 1;
      var target := line.operands[last];
      match TranslateTarget(table[target].line, lineMap)
      case None => Err(BuildError("unmappable-label", Some(line.sourceLine + 1)))
      case Some(t) =>
        Ok(line.(text := ReplaceTokens(line.text, map[target := IntText(t)]), operands := line.operands[..last] +
          [IntText(t)]))
  }

  function RelabelUpTo(table: Table, removable: set<string>, lineMap: seq<Option<nat>>, output: seq<OutputLine>,
                       k: nat): (r: Result<seq<OutputLine>, BuildError>)
    requires removable <= table.Keys && k <= |output|
    ensures r.Ok? ==> |r.value| == k
  {
    if k == 0 then Ok([])
    else match RelabelUpTo(table, removable, lineMap, output, k - 1)
      case Err(e) => Err(e)
      case Ok(lines) =>
        match RelabelLine(table, removable, lineMap, output[k - 1])
        case Err(e) => Err(e)
        case Ok(line) => Ok(lines + [line])
  }

  /** The source lines whose label operand became a number. */
  function RelabelledLines(removable: set<string>, output: seq<OutputLine>): set<nat> {
    set line | line in output && NamesRemoved(removable, line) :: line.sourceLine
  }

  function CompactLines(raw: seq<string>): Result<Adjusted, BuildError> {
    var p := ProgramOf(raw);
    var lines := Surviving(raw);
    SurvivingInRange(raw);
    match RelabelUpTo(Collect(p), RemovableLabels(p), LineMap(|p|, KeptOf(lines)), lines, |lines|)
    case Err(e) => Err(e)
    case Ok(relabelled) =>
      RelabelKeeps(Collect(p), RemovableLabels(p), LineMap(|p|, KeptOf(lines)), lines, |lines|);
      AdjustAll(ContextOf(p, relabelled, RelabelledLines(RemovableLabels(p), lines)), relabelled)
  }

  // ----- facts about the stages -----

  ghost predicate KeepsPlace(f: OutputLine -> Option<OutputLine>) {
    forall line :: f(line).Some? ==> f(line).value.sourceLine == line.sourceLine
  }

  lemma {:induction false} FilterMapIncreasing(f: OutputLine -> Option<OutputLine>, output: seq<OutputLine>, n: nat)
    requires KeepsPlace(f) && Increasing(KeptOf(output), n)
    ensures Increasing(KeptOf(FilterMap(f, output)), n)
  {
    if output != [] {
      var m := |output| - 1;
      var line := output[m];
      assert line.sourceLine == KeptOf(output)[m];
      assert KeptOf(output[..m]) == KeptOf(output)[..m];
      FilterMapIncreasing(f, output[..m], line.sourceLine);
      var before := FilterMap(f, output[..m]);
      if f(line).Some? {
        KeptOfAppend(before, [f(line).value]);
      } else {
        assert FilterMap(f, output) == before;
      }
    }
  }

  lemma {:induction false} FilterMapFrom(f: OutputLine -> Option<OutputLine>, output: seq<OutputLine>, g: nat)
    returns (i: nat)
    requires g < |FilterMap(f, output)|
    ensures i < |output| && f(output[i]) == Some(FilterMap(f, output)[g])
  {
    var m := |output| - 1;
    if g < |FilterMap(f, output[..m])| { i := FilterMapFrom(f, output[..m], g); } else { i := m; }
  }

  lemma {:induction false} FilterMapKeeps(f: OutputLine -> Option<OutputLine>, output: seq<OutputLine>, i: nat)
    requires i < |output| && f(output[i]).Some?
    ensures f(output[i]).value in FilterMap(f, output)
  {
    var m := |output| - 1;
    if i < m { FilterMapKeeps(f, output[..m], i); }
  }

  lemma StagesKeepPlace(names: Renaming, removed: set<nat>)
    ensures KeepsPlace(line => SubstituteLine(names, line)) && KeepsPlace(line => RetainLine(removed, line))
  {}

  lemma SurvivingInRange(raw: seq<string>)
    ensures Increasing(KeptOf(Surviving(raw)), |raw|)
    ensures forall g :: 0 <= g < |Surviving(raw)| ==> Surviving(raw)[g].sourceLine < |raw|
  {
    hide KeptLines, SubstituteLine, RetainLine, FilterMap, RenamingOf, LabelLines, KeepsPlace, ProgramOf;
    var p := ProgramOf(raw);
    KeptLinesInRange(raw);
    StagesKeepPlace(RenamingOf(p), LabelLines(p));
    var f, h := line => SubstituteLine(RenamingOf(p), line), line => RetainLine(LabelLines(p), line);
    FilterMapIncreasing(f, KeptLines(raw), |raw|);
    FilterMapIncreasing(h, FilterMap(f, KeptLines(raw)), |raw|);
    assert forall g :: 0 <= g < |Surviving(raw)| ==> Surviving(raw)[g].sourceLine == KeptOf(Surviving(raw))[g];
  }

  lemma {:induction false} RelabelKeeps(table: Table, removable: set<string>, lineMap: seq<Option<nat>>,
                          output: seq<OutputLine>, k: nat)
    requires removable <= table.Keys && k <= |output| && RelabelUpTo(table, removable, lineMap, output, k).Ok?
    ensures var lines := RelabelUpTo(table, removable, lineMap, output, k).value;
      forall g :: 0 <= g < k ==>
        (RelabelLine(table, removable, lineMap, output[g]) == Ok(lines[g]) &&
          lines[g].sourceLine == output[g].sourceLine)
  {
    hide TranslateTarget, NamesRemoved;
    if k > 0 { RelabelKeeps(table, removable, lineMap, output, k - 1); }
  }
}
