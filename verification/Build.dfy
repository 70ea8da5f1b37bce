/** The compiler's entry point: validation, the three optimization levels, the line limit and the source map. */
module Build {
  import opened Prelude
  import opened Text
  import opened Symbols
  import opened Words
  import opened Lines
  import opened Adjusting
  import opened Readable
  import opened Compact
  import opened CompactRuns

  datatype OptimizationLevel = ExactLevel | ReadableLevel | CompactLevel

  datatype Options = Options(level: OptimizationLevel, gameVersion: Option<string>)

  /** The generated language data, and the errors of validation passes that are not modelled. */
  datatype Knowledge = Knowledge(gameVersion: string, maximumLines: nat, rejects: string -> bool)

  /** One-based generated and source line numbers. */
  datatype MapEntry = MapEntry(generatedLine: nat, sourceLine: nat)

  datatype BuildOutput = BuildOutput(code: string, sourceMap: seq<MapEntry>, savedLines: int, adjustedRelative: nat,
    adjustedAbsolute: nat)

  function HasErrors(source: string, knowledge: Knowledge): bool {
    var p := ProgramOf(SourceLines(source));
    knowledge.rejects(source) || !NamesAreIdentifiers(p) || !Acyclic(Collect(p))
  }

  // ----- finishing -----

  function SourceMap(kept: seq<nat>, generated: nat): (r: seq<MapEntry>)
    ensures |r| == Min(|kept|, generated)
  {
    seq(Min(|kept|, generated), g requires 0 <= g < Min(|kept|, generated) => MapEntry(g + 1, kept[g] + 1))
  }

  function Finish(source: string, code: string, kept: seq<nat>, knowledge: Knowledge, relative: nat,
                  absolute: nat): Result<BuildOutput, BuildError> {
    var generated := |SourceLines(code)|;
    if generated > knowledge.maximumLines then
      Err(BuildError("official-program-line-limit",
        if knowledge.maximumLines < |kept| then Some(kept[knowledge.maximumLines] + 1) else None))
    else
      Ok(BuildOutput(code, SourceMap(kept, generated), |SourceLines(source)| - generated, relative, absolute))
  }

  // ----- the unoptimized level -----

  predicate IsIndent(c: char) { c == ' ' || c == '\t' }

  /** Spaces and tabs at the start of every line removed. */
  function StripIndent(atStart: bool, s: string): string
    decreases |s|
  {
    if s == [] then []
    else if atStart && IsIndent(s[0]) then StripIndent(true, s[1..])
    else [s[0]] + StripIndent(s[0] == '\n', s[1..])
  }

  function FinishExact(source: string, knowledge: Knowledge): Result<BuildOutput, BuildError> {
    Finish(source, StripIndent(true, source), seq(|SourceLines(source)|, i => i), knowledge, 0, 0)
  }

  // ----- building -----

  function Optimized(level: OptimizationLevel, raw: seq<string>): Result<Adjusted, BuildError> {
    if level.CompactLevel? then CompactLines(raw) else ReadableLines(raw)
  }

  function BuildResult(source: string, options: Options, knowledge: Knowledge): Result<BuildOutput, BuildError> {
    if options.gameVersion.Some? && options.gameVersion.value != knowledge.gameVersion then
      Err(BuildError("game-version-mismatch", None))
    else if HasErrors(source, knowledge) then Err(BuildError("validation", None))
    else if options.level.ExactLevel? then FinishExact(source, knowledge)
    else match Optimized(options.level, SourceLines(source))
      case Err(e) => Err(e)
      case Ok(a) => Finish(source, CodeOf(a.lines), KeptOf(a.lines), knowledge, a.relative, a.absolute)
  }

  method SubstituteNames(names: Renaming, output: seq<OutputLine>) returns (result: seq<OutputLine>)
    ensures result == FilterMap(line => SubstituteLine(names, line), output)
  {
    result := [];
    var r := Replacements(names);
    for i := 0 to |output|
      invariant result == FilterMap(line => SubstituteLine(names, line), output[..i])
    {
      assert output[..i + 1][..i] == output[..i];
      var line := output[i];
      if !(line.mnemonic == Some("define") && line.operands != [] && line.operands[0] in names.defines) {
        var text := ReplaceEveryToken(line.text, r);
        if text != [] {
          result := result + [line.(text := text, operands := SubAll(r, line.operands))];
        }
      }
    }
    assert output[..|output|] == output;
  }

  method RetainLines(removed: set<nat>, output: seq<OutputLine>) returns (result: seq<OutputLine>)
    ensures result == FilterMap(line => RetainLine(removed, line), output)
  {
    result := [];
    for i := 0 to |output|
      invariant result == FilterMap(line => RetainLine(removed, line), output[..i])
    {
      assert output[..i + 1][..i] == output[..i];
      if output[i].sourceLine !in removed { result := result + [output[i]]; }
    }
    assert output[..|output|] == output;
  }

  /** Removable labels replaced by the generated line they mark, and which lines that touched. */
  method ReplaceLabels(table: Table, removable: set<string>, lineMap: seq<Option<nat>>, output: seq<OutputLine>)
    returns (r: Result<seq<OutputLine>, BuildError>, relabelled: set<nat>)
    requires removable <= table.Keys
    ensures r == RelabelUpTo(table, removable, lineMap, output, |output|)
    ensures r.Ok? ==> relabelled == RelabelledLines(removable, output)
  {
    var lines := output;
    relabelled := {};
    for i := 0 to |output|
      invariant |lines| == |output| && lines[i..] == output[i..]
      invariant RelabelUpTo(table, removable, lineMap, output, i) == Ok(lines[..i])
      invariant relabelled == RelabelledLines(removable, output[..i])
    {
      var line := lines[i];
      assert line == lines[i..][0] == output[i];
      match RelabelLine(table, removable, lineMap, line) {
        case Err(e) =>
          RelabelErrorStays(table, removable, lineMap, output, i + 1);
          return Err(e), relabelled;
        case Ok(changed) =>
          lines := lines[i := changed];
          if NamesRemoved(removable, line) { relabelled := relabelled + {line.sourceLine}; }
          RelabelledGrows(removable, output, i);
      }
      assert lines[..i + 1] == lines[..i] + [lines[i]];
    }
    assert lines[..|output|] == lines && output[..|output|] == output;
    r := Ok(lines);
  }

  lemma RelabelledGrows(removable: set<string>, output: seq<OutputLine>, i: nat)
    requires i < |output|
    ensures RelabelledLines(removable, output[..i + 1]) ==
      RelabelledLines(removable, output[..i]) + if NamesRemoved(removable, output[i]) then {output[i].sourceLine}
        else {}
  {
    assert output[..i + 1] == output[..i] + [output[i]];
  }

  lemma {:induction false} RelabelErrorStays(table: Table, removable: set<string>, lineMap: seq<Option<nat>>,
                          output: seq<OutputLine>, k: nat)
    requires removable <= table.Keys && k <= |output| && RelabelUpTo(table, removable, lineMap, output, k).Err?
    ensures RelabelUpTo(table, removable, lineMap, output, |output|) ==
        RelabelUpTo(table, removable, lineMap, output, k)
    decreases |output| - k
  {
    if k < |output| { RelabelErrorStays(table, removable, lineMap, output, k + 1); }
  }

  method BuildReadable(raw: seq<string>, lines: seq<ParsedLine>) returns (r: Result<Adjusted, BuildError>)
    requires lines == ParseLines(raw)
    ensures r == ReadableLines(raw)
  {
    hide KeptLines, AdjustUpTo, LineMap;
    var output := KeepLines(raw, lines);
    KeptLinesInRange(raw);
    var lineMap := GeneratedLineMap(|raw|, output);
    var table, invalid := CollectDeclarations(Kinds(lines));
    r := AdjustBranches(Context(table, lineMap, |output| != |raw|, {}), output);
  }

  method BuildCompact(raw: seq<string>, lines: seq<ParsedLine>) returns (r: Result<Adjusted, BuildError>)
    requires lines == ParseLines(raw)
    ensures r == CompactLines(raw)
  {
    hide KeptLines, AdjustUpTo, LineMap, SubstituteLine, RetainLine, FilterMap, RelabelUpTo, RenamingOf, LabelLines,
        RemovableLabels, RelabelledLines;
    var p := Kinds(lines);
    var table, invalid := CollectDeclarations(p);
    var output := KeepLines(raw, lines);
    output := SubstituteNames(RenamingOf(p), output);
    output := RetainLines(LabelLines(p), output);
    assert output == Surviving(raw);
    SurvivingInRange(raw);
    RemovableAreSymbols(p);
    var lineMap := GeneratedLineMap(|raw|, output);
    var relabelling, relabelled := ReplaceLabels(table, RemovableLabels(p), lineMap, output);
    match relabelling {
      case Err(e) => r := Err(e);
      case Ok(final) =>
        RelabelKeeps(table, RemovableLabels(p), lineMap, output, |output|);
        assert KeptOf(final) == KeptOf(output);
        lineMap := GeneratedLineMap(|raw|, final);
        r := AdjustBranches(Context(table, lineMap, |final| != |raw|, relabelled), final);
    }
  }

  /** The whole compiler. */
  method Compile(source: string, options: Options, knowledge: Knowledge) returns (r: Result<BuildOutput, BuildError>)
    ensures r == BuildResult(source, options, knowledge)
  {
    hide FinishExact, Finish, ReadableLines, CompactLines;
    if options.gameVersion.Some? && options.gameVersion.value != knowledge.gameVersion {
      return Err(BuildError("game-version-mismatch", None));
    }
    if HasErrors(source, knowledge) { return Err(BuildError("validation", None)); }
    if options.level.ExactLevel? { return FinishExact(source, knowledge); }
    var raw := SourceLines(source);
    var lines := ParseLines(raw);
    var optimized;
    if options.level.CompactLevel? {
      optimized := BuildCompact(raw, lines);
    } else {
      optimized := BuildReadable(raw, lines);
    }
    match optimized {
      case Err(e) => r := Err(e);
      case Ok(a) => r := Finish(source, CodeOf(a.lines), KeptOf(a.lines), knowledge, a.relative, a.absolute);
    }
  }
}
