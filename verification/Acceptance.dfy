/**
 Which sources the compiler accepts, and what it says of the others: every validation error, branch refusal and line
 limit, stated on the source and the lines to be kept.
 */
module Acceptance {
  import opened Prelude
  import opened Text
  import opened Literals
  import opened Symbols
  import opened Machine
  import opened Relinking
  import opened Carrying
  import opened Lines
  import opened Adjusting
  import opened Readable
  import opened Compact
  import opened NameTransfer
  import opened CompactText
  import opened CompactRuns
  import opened Build
  import opened Preservation

  // ----- branches -----

  /** Line `d` is in the source, and some line at or after it is kept. */
  predicate Lands(kept: seq<nat>, n: nat, d: int) { 0 <= d < n && exists g :: 0 <= g < |kept| && d <= kept[g] }

  /** The line before which a relative target counts. */
  function BaseOf(line: OutputLine): int
    requires line.mnemonic.Some?
  {
    if IsRelative(line.mnemonic.value) then line.sourceLine else 0
  }

  /** The compiler rewrites the target of this branch, or must be sure that it need not. */
  predicate IsChecked(table: Table, line: OutputLine) {
    && line.mnemonic.Some? && line.operands != []
    && (IsRelative(line.mnemonic.value)
        || (IsAbsoluteBranch(line.mnemonic.value) && !IsLabelSymbol(table, line.operands[|line.operands| - 1])))
  }

  /** A checked branch needs a literal target that lands, or no line may be deleted. */
  predicate Admissible(p: seq<LineKind>, kept: seq<nat>, line: OutputLine) {
    IsChecked(Collect(p), line) ==>
      match ParseInteger(line.operands[|line.operands| - 1])
      case Some(v) => Lands(kept, |p|, BaseOf(line) + v)
      case None => |kept| == |p|
  }

  /** What the error says is true of the line. */
  predicate Explains(code: string, p: seq<LineKind>, line: OutputLine)
    requires IsChecked(Collect(p), line)
  {
    match ParseInteger(line.operands[|line.operands| - 1])
    case None => code == if IsRelative(line.mnemonic.value) then "unsafe-relative-branch" else "unsafe-absolute-branch"
    case Some(v) =>
      code == if 0 <= BaseOf(line) + v < |p| then "unmappable-branch" else "branch-out-of-range"
  }

  predicate IsRefusal(p: seq<LineKind>, line: OutputLine, e: BuildError) {
    IsChecked(Collect(p), line) && Explains(e.code, p, line) && e.sourceLine == Some(line.sourceLine + 1)
  }

  lemma {:induction false} LastKeptDecides(kept: seq<nat>, n: nat, t: nat)
    requires Increasing(kept, n) && t <= n
    ensures Below(kept, t) < |kept| <==> exists g :: 0 <= g < |kept| && t <= kept[g]
  {
    if Below(kept, t) < |kept| {
      BelowIsPrefix(kept, n, t, Below(kept, t));
    } else {
      forall g | 0 <= g < |kept| ensures kept[g] < t { BelowIsPrefix(kept, n, t, g); }
    }
  }

  /** One branch: adjusting fails exactly if it is not admissible, and rewrites exactly what must change. */
  lemma AdjustmentIs(x: Context, p: seq<LineKind>, kept: seq<nat>, g: nat, line: OutputLine)
    requires AdjustsFor(x, p, kept) && line.sourceLine !in x.relabelled
    ensures Adjustment(x, g, line).Ok? <==> Admissible(p, kept, line)
    ensures Adjustment(x, g, line).Err? ==> IsRefusal(p, line, Adjustment(x, g, line).error)
  {
    hide IsLabelSymbol, ParseInteger, IsRelative, IsAbsoluteBranch, LineMap, Below, Collect, Increasing;
    if IsChecked(Collect(p), line) {
      RelativeIsNotAbsolute(line.mnemonic.value);
      match ParseInteger(line.operands[|line.operands| - 1])
      case None =>
      case Some(v) =>
        var d := BaseOf(line) + v;
        if 0 <= d < |p| {
          TranslateIsBelow(|p|, kept, d);
          LastKeptDecides(kept, |p|, d);
        }
    } else if line.mnemonic.Some? {
      RelativeIsNotAbsolute(line.mnemonic.value);
    }
  }

  /** A rewritten branch differs from the original, any other line does not. */
  lemma RewrittenDiffers(x: Context, g: nat, line: OutputLine)
    requires Adjustment(x, g, line).Ok?
    ensures var target := Adjustment(x, g, line).value;
      && (target.Some? ==> line.mnemonic.Some?) && (target.Some? <==> Retargeted(line, target) != line)
  {
    hide IsLabelSymbol, ParseInteger, IsRelative, IsAbsoluteBranch, IntText, TranslateTarget;
    var target := Adjustment(x, g, line).value;
    if target.Some? {
      IntTextParses(target.value);
      assert line.operands != [];
      assert Retargeted(line, target).operands[|line.operands| - 1] == IntText(target.value);
    }
  }

  /** How many of the first `k` branches, relative or not, were rewritten. */
  function Rewritten(before: seq<OutputLine>, after: seq<OutputLine>, relative: bool, k: nat): nat
    requires k <= |before| && k <= |after|
  {
    if k == 0 then 0
    else
      var line := before[k - 1];
      Rewritten(before, after, relative, k - 1) +
        if after[k - 1] != line && line.mnemonic.Some? && IsRelative(line.mnemonic.value) == relative then 1 else 0
  }

  lemma {:induction false} RewrittenPrefix(before: seq<OutputLine>, after: seq<OutputLine>, last: OutputLine,
                                           relative: bool, k: nat)
    requires k <= |after| && k <= |before|
    ensures Rewritten(before, after + [last], relative, k) == Rewritten(before, after, relative, k)
  {
    hide IsRelative;
    if k > 0 { RewrittenPrefix(before, after, last, relative, k - 1); }
  }

  /** Branches whose label became a line number are not looked at again. */
  predicate Refused(p: seq<LineKind>, kept: seq<nat>, relabelled: set<nat>, line: OutputLine) {
    line.sourceLine !in relabelled && !Admissible(p, kept, line)
  }

  ghost predicate FirstRefused(p: seq<LineKind>, kept: seq<nat>, relabelled: set<nat>, output: seq<OutputLine>,
                          g: nat) {
    && g < |output| && Refused(p, kept, relabelled, output[g])
    && forall h :: 0 <= h < g ==> !Refused(p, kept, relabelled, output[h])
  }

  ghost predicate Relabels(relabelled: set<nat>, output: seq<OutputLine>) {
    forall line :: line in output && line.sourceLine in relabelled ==>
      line.mnemonic.Some? && IsAbsoluteBranch(line.mnemonic.value)
  }

  lemma OneAdjustment(x: Context, p: seq<LineKind>, kept: seq<nat>, g: nat, line: OutputLine)
    requires AdjustsFor(x, p, kept)
    requires line.sourceLine in x.relabelled ==> line.mnemonic.Some? && IsAbsoluteBranch(line.mnemonic.value)
    ensures Adjustment(x, g, line).Err? <==> Refused(p, kept, x.relabelled, line)
    ensures Adjustment(x, g, line).Err? ==> IsRefusal(p, line, Adjustment(x, g, line).error)
  {
    hide IsLabelSymbol, ParseInteger, IsRelative, IsAbsoluteBranch, LineMap, Collect, Admissible, IsRefusal, AdjustsFor;
    if line.sourceLine in x.relabelled {
      assert Adjustment(x, g, line) == Ok(None);
    } else {
      AdjustmentIs(x, p, kept, g, line);
    }
  }

  /** Adjusting stops at the first refused branch, with the reason; otherwise it counts the rewritten branches. */
  lemma {:induction false} AdjustsExactly(x: Context, p: seq<LineKind>, kept: seq<nat>, output: seq<OutputLine>, k: nat)
    requires AdjustsFor(x, p, kept) && Relabels(x.relabelled, output) && k <= |output|
    ensures match AdjustUpTo(x, output, k)
      case Ok(a) =>
        ((forall g :: 0 <= g < k ==> !Refused(p, kept, x.relabelled, output[g]))
         && a.relative == Rewritten(output, a.lines, true, k) && a.absolute == Rewritten(output, a.lines, false, k))
      case Err(e) =>
        exists g: nat :: g < k && FirstRefused(p, kept, x.relabelled, output, g) && IsRefusal(p, output[g], e)
  {
    hide Adjustment, Retargeted, IsRelative, IsAbsoluteBranch, Refused, AdjustsFor, IsRefusal;
    if k > 0 {
      AdjustsExactly(x, p, kept, output, k - 1);
      var line := output[k - 1];
      assert line in output;
      OneAdjustment(x, p, kept, k - 1, line);
      if AdjustUpTo(x, output, k - 1).Ok? {
        if Adjustment(x, k - 1, line).Err? {
          assert FirstRefused(p, kept, x.relabelled, output, k - 1);
        } else {
          RewrittenDiffers(x, k - 1, line);
          var a := AdjustUpTo(x, output, k - 1).value;
          var next := Retargeted(line, Adjustment(x, k - 1, line).value);
          RewrittenPrefix(output, a.lines, next, true, k - 1);
          RewrittenPrefix(output, a.lines, next, false, k - 1);
        }
      }
    }
  }

  // ----- readable builds -----

  /** A readable build stops at the first refused branch; otherwise it counts the branches it rewrote. */
  lemma ReadableOutcome(raw: seq<string>)
    ensures var p, lines := ProgramOf(raw), KeptLines(raw); var kept := KeptOf(lines);
      match ReadableLines(raw)
      case Ok(a) =>
        ((forall g :: 0 <= g < |lines| ==> !Refused(p, kept, {}, lines[g])) && |a.lines| == |lines|
         && a.relative == Rewritten(lines, a.lines, true, |lines|)
         && a.absolute == Rewritten(lines, a.lines, false, |lines|))
      case Err(e) => exists g: nat :: FirstRefused(p, kept, {}, lines, g) && IsRefusal(p, lines[g], e)
  {
    hide Refused, AdjustUpTo, IsRefusal, KeptLines, ProgramOf, LineMap;
    KeptLinesInRange(raw);
    var p, lines := ProgramOf(raw), KeptLines(raw);
    AdjustsExactly(ContextOf(p, lines, {}), p, KeptOf(lines), lines, |lines|);
  }

  // ----- compact builds -----

  /** The removable label that this branch names leads to no line. */
  predicate LosesLabel(p: seq<LineKind>, kept: seq<nat>, line: OutputLine) {
    && NamesRemoved(RemovableLabels(p), line)
    && forall g :: 0 <= g < |kept| ==> kept[g] < Collect(p)[line.operands[|line.operands| - 1]].line
  }

  lemma RelabelIs(p: seq<LineKind>, kept: seq<nat>, line: OutputLine)
    requires Increasing(kept, |p|) && RemovableLabels(p) <= Collect(p).Keys
    ensures var r := RelabelLine(Collect(p), RemovableLabels(p), LineMap(|p|, kept), line);
      && (r.Err? <==> LosesLabel(p, kept, line))
      && (r.Err? ==> r.error == BuildError("unmappable-label", Some(line.sourceLine + 1)))
      && (r.Ok? ==> r.value.sourceLine == line.sourceLine && r.value.mnemonic == line.mnemonic)
      && (!NamesRemoved(RemovableLabels(p), line) ==> r == Ok(line))
  {
    hide Collect, RemovableLabels, Increasing, IsAbsoluteBranch;
    if NamesRemoved(RemovableLabels(p), line) {
      var name := line.operands[|line.operands| - 1];
      CollectEntries(p, name);
      TranslateIsBelow(|p|, kept, Collect(p)[name].line);
      LastKeptDecides(kept, |p|, Collect(p)[name].line);
    }
  }

  lemma {:induction false} RelabelsExactly(p: seq<LineKind>, kept: seq<nat>, output: seq<OutputLine>, k: nat)
    requires Increasing(kept, |p|) && RemovableLabels(p) <= Collect(p).Keys && k <= |output|
    ensures match RelabelUpTo(Collect(p), RemovableLabels(p), LineMap(|p|, kept), output, k)
      case Ok(_) => forall g :: 0 <= g < k ==> !LosesLabel(p, kept, output[g])
      case Err(e) =>
        exists g: nat :: g < k && LosesLabel(p, kept, output[g])
          && e == BuildError("unmappable-label", Some(output[g].sourceLine + 1))
          && forall h :: 0 <= h < g ==> !LosesLabel(p, kept, output[h])
  {
    hide RelabelLine, LosesLabel, Collect, RemovableLabels, LineMap, Increasing;
    if k > 0 {
      RelabelsExactly(p, kept, output, k - 1);
      RelabelIs(p, kept, output[k - 1]);
    }
  }

  /** A surviving line of a compact build cannot be completed: its label or its target is lost, or it is unsafe. */
  predicate CompactRefused(raw: seq<string>, line: OutputLine) {
    var p, kept := ProgramOf(raw), KeptOf(Surviving(raw));
    if NamesRemoved(RemovableLabels(p), line) then LosesLabel(p, kept, line) else !Admissible(p, kept, line)
  }

  /** The error names a surviving line that cannot be completed, and why. */
  ghost predicate CompactRefusal(raw: seq<string>, line: OutputLine, e: BuildError) {
    && CompactRefused(raw, line)
    && if NamesRemoved(RemovableLabels(ProgramOf(raw)), line) then
         e == BuildError("unmappable-label", Some(line.sourceLine + 1))
       else IsRefusal(ProgramOf(raw), line, e)
  }

  lemma RelabelledRefused(raw: seq<string>, relabelled: seq<OutputLine>, g: nat)
    requires g < |Surviving(raw)| == |relabelled| && RemovableLabels(ProgramOf(raw)) <= Collect(ProgramOf(raw)).Keys
    requires Increasing(KeptOf(Surviving(raw)), |raw|)
    requires RelabelLine(Collect(ProgramOf(raw)), RemovableLabels(ProgramOf(raw)),
      LineMap(|raw|, KeptOf(Surviving(raw))), Surviving(raw)[g]) == Ok(relabelled[g])
    ensures var p := ProgramOf(raw); var removable := RemovableLabels(p); var line := Surviving(raw)[g];
      && (Refused(p, KeptOf(Surviving(raw)), RelabelledLines(removable, Surviving(raw)), relabelled[g]) <==>
            CompactRefused(raw, line))
      && (!NamesRemoved(removable, line) ==> relabelled[g] == line)
      && (relabelled[g].sourceLine in RelabelledLines(removable, Surviving(raw)) <==> NamesRemoved(removable, line))
      && relabelled[g].sourceLine == line.sourceLine && relabelled[g].mnemonic == line.mnemonic
  {
    hide RelabelLine, LosesLabel, Collect, RemovableLabels, Surviving, ProgramOf, Admissible, LineMap, NamesRemoved;
    RelabelIs(ProgramOf(raw), KeptOf(Surviving(raw)), Surviving(raw)[g]);
    if !NamesRemoved(RemovableLabels(ProgramOf(raw)), Surviving(raw)[g]) { NotRelabelled(raw, g); }
  }

  /** A compact build fails exactly when some surviving line cannot be completed, and names one with the reason. */
  lemma CompactOutcome(raw: seq<string>)
    ensures match CompactLines(raw)
      case Ok(a) => forall line :: line in Surviving(raw) ==> !CompactRefused(raw, line)
      case Err(e) => exists line :: line in Surviving(raw) && CompactRefusal(raw, line, e)
  {
    hide RelabelUpTo, RelabelLine, LosesLabel, Collect, RemovableLabels, Surviving, ProgramOf, Refused, LineMap,
        AdjustUpTo, IsRefusal, CompactRefused, RelabelledLines, NamesRemoved;
    var p, lines := ProgramOf(raw), Surviving(raw);
    var kept, removable := KeptOf(lines), RemovableLabels(p);
    SurvivingInRange(raw);
    RemovableAreSymbols(p);
    RelabelsExactly(p, kept, lines, |lines|);
    match RelabelUpTo(Collect(p), removable, LineMap(|p|, kept), lines, |lines|)
    case Err(e) =>
      var g: nat :| g < |lines| && LosesLabel(p, kept, lines[g])
        && e == BuildError("unmappable-label", Some(lines[g].sourceLine + 1));
      LostIsRefused(raw, lines[g]);
      assert CompactLines(raw) == Err(e) && CompactRefusal(raw, lines[g], e);
    case Ok(relabelled) =>
      RelabelKeeps(Collect(p), removable, LineMap(|p|, kept), lines, |lines|);
      assert KeptOf(relabelled) == kept;
      forall g | 0 <= g < |lines|
        ensures Refused(p, kept, RelabelledLines(removable, lines), relabelled[g]) <==> CompactRefused(raw, lines[g])
        ensures !NamesRemoved(removable, lines[g]) ==> relabelled[g] == lines[g]
        ensures relabelled[g].sourceLine in RelabelledLines(removable, lines) <==> NamesRemoved(removable, lines[g])
        ensures relabelled[g].mnemonic == lines[g].mnemonic
      {
        RelabelledRefused(raw, relabelled, g);
      }
      RelabelledAreAbsolute(removable, lines, relabelled);
      AdjustsExactly(ContextOf(p, relabelled, RelabelledLines(removable, lines)), p, kept, relabelled, |relabelled|);
      if CompactLines(raw).Err? {
        var e := CompactLines(raw).error;
        var g: nat :| g < |lines| && FirstRefused(p, kept, RelabelledLines(removable, lines), relabelled, g)
          && IsRefusal(p, relabelled[g], e);
        RefusedIsNoLabel(p, kept, RelabelledLines(removable, lines), relabelled[g]);
        assert CompactRefusal(raw, lines[g], e);
      } else {
        forall line | line in lines ensures !CompactRefused(raw, line) {
          var g :| 0 <= g < |lines| && lines[g] == line;
          assert !Refused(p, kept, RelabelledLines(removable, lines), relabelled[g]);
        }
      }
  }

  lemma LostIsRefused(raw: seq<string>, line: OutputLine)
    requires LosesLabel(ProgramOf(raw), KeptOf(Surviving(raw)), line)
    ensures NamesRemoved(RemovableLabels(ProgramOf(raw)), line) && CompactRefused(raw, line)
  {}

  lemma RefusedIsNoLabel(p: seq<LineKind>, kept: seq<nat>, relabelled: set<nat>, line: OutputLine)
    requires Refused(p, kept, relabelled, line)
    ensures line.sourceLine !in relabelled
  {}

  lemma RelabelledAreAbsolute(removable: set<string>, lines: seq<OutputLine>, relabelled: seq<OutputLine>)
    requires |relabelled| == |lines|
    requires forall g :: 0 <= g < |lines| ==>
      relabelled[g].mnemonic == lines[g].mnemonic
      && (relabelled[g].sourceLine in RelabelledLines(removable, lines) <==> NamesRemoved(removable, lines[g]))
    ensures Relabels(RelabelledLines(removable, lines), relabelled)
  {
    hide RelabelledLines, IsAbsoluteBranch;
  }

  // ----- whole builds -----

  /** Something a validation pass reports: one not modelled, an invalid name, or a chain of values without end. */
  ghost predicate Invalid(source: string, knowledge: Knowledge) {
    var p := SourceProgram(source);
    || knowledge.rejects(source)
    || (exists i :: 0 <= i < |p| && Declared(p[i], i).Some? && !IsIdentifier(Declared(p[i], i).value.0))
    || exists name :: name in Collect(p) && Cyclic(AllValues(Collect(p)), name)
  }

  lemma InvalidHasErrors(source: string, knowledge: Knowledge)
    ensures HasErrors(source, knowledge) <==> Invalid(source, knowledge)
  {
    hide Collect, FindsCycle, IsIdentifier, Declared, Cyclic;
    var table := Collect(SourceProgram(source));
    forall name | name in table ensures FindsCycle(table, name, {}) <==> Cyclic(AllValues(table), name) {
      CyclesAreFound(table, name);
    }
  }

  /** The lines an optimizing build starts adjusting with. */
  function LinesToBuild(source: string, level: OptimizationLevel): seq<OutputLine> {
    if level.CompactLevel? then Surviving(SourceLines(source)) else KeptLines(SourceLines(source))
  }

  predicate BranchRefused(source: string, level: OptimizationLevel, line: OutputLine) {
    if level.CompactLevel? then CompactRefused(SourceLines(source), line)
    else !Admissible(SourceProgram(source), KeptOf(LinesToBuild(source, level)), line)
  }

  ghost predicate BranchRefusal(source: string, level: OptimizationLevel, line: OutputLine, e: BuildError) {
    if level.CompactLevel? then CompactRefusal(SourceLines(source), line, e)
    else BranchRefused(source, level, line) && IsRefusal(SourceProgram(source), line, e)
  }

  /** Optimizing fails exactly when some branch is refused, and names one. */
  lemma OptimizedOutcome(source: string, level: OptimizationLevel)
    requires !level.ExactLevel?
    ensures match Optimized(level, SourceLines(source))
      case Ok(_) => forall line :: line in LinesToBuild(source, level) ==> !BranchRefused(source, level, line)
      case Err(e) =>
        exists line :: line in LinesToBuild(source, level) && BranchRefused(source, level, line)
          && BranchRefusal(source, level, line, e)
  {
    hide ReadableLines, CompactLines, SourceLines, Surviving, KeptLines, Admissible, CompactRefused, IsRefusal;
    var raw := SourceLines(source);
    if level.CompactLevel? {
      CompactOutcome(raw);
      if CompactLines(raw).Err? {
        var e := CompactLines(raw).error;
        var line :| line in Surviving(raw) && CompactRefusal(raw, line, e);
        assert line in LinesToBuild(source, level) && BranchRefusal(source, level, line, e);
      }
    } else {
      ReadableOutcome(raw);
      match ReadableLines(raw)
      case Ok(a) =>
        forall line | line in KeptLines(raw) ensures !BranchRefused(source, level, line) {
          var g :| 0 <= g < |KeptLines(raw)| && KeptLines(raw)[g] == line;
          assert !Refused(ProgramOf(raw), KeptOf(KeptLines(raw)), {}, KeptLines(raw)[g]);
        }
      case Err(e) =>
        var g: nat :| FirstRefused(ProgramOf(raw), KeptOf(KeptLines(raw)), {}, KeptLines(raw), g)
          && IsRefusal(ProgramOf(raw), KeptLines(raw)[g], e);
        assert KeptLines(raw)[g] in LinesToBuild(source, level);
    }
  }

  /** An optimized program has as many lines as are kept. */
  lemma OptimizedCount(source: string, level: OptimizationLevel, a: Adjusted)
    requires !level.ExactLevel? && Sound(source, level) && NamesAreIdentifiers(SourceProgram(source))
    requires Optimized(level, SourceLines(source)) == Ok(a)
    ensures |SourceLines(CodeOf(a.lines))| == |a.lines| && KeptOf(a.lines) == SurvivingLines(source, level)
  {
    hide ReadableLines, CompactLines, SourceLines, NamesAreIdentifiers, Lawful, QuotedWordsFree, QuotesClosed, CodeOf,
        KeptOf, Surviving, KeptLines;
    SourceLinesHaveNoNewline(source);
    if level.CompactLevel? {
      assert CompactFrom(SourceLines(source), a.lines);
      CompactReads(SourceLines(source), a.lines);
      CompactKept(SourceLines(source), a.lines);
    } else {
      assert BuiltFrom(SourceLines(source), a.lines);
      BuildReads(SourceLines(source), a.lines);
      SameKept(SourceLines(source), a.lines);
    }
  }

  predicate VersionFits(options: Options, knowledge: Knowledge) {
    options.gameVersion == None || options.gameVersion == Some(knowledge.gameVersion)
  }

  /**
   The whole verdict: the wrong game version, then validation, then a branch that cannot be completed, then the line
   limit; and nothing else is refused.
   */
  lemma BuildOutcome(source: string, options: Options, knowledge: Knowledge)
    requires !options.level.ExactLevel? && Sound(source, options.level)
    ensures var r, kept := BuildResult(source, options, knowledge), SurvivingLines(source, options.level);
      if !VersionFits(options, knowledge) then r == Err(BuildError("game-version-mismatch", None))
      else if Invalid(source, knowledge) then r == Err(BuildError("validation", None))
      else if exists line :: line in LinesToBuild(source, options.level) && BranchRefused(source, options.level, line)
      then
        r.Err? && exists line ::
          line in LinesToBuild(source, options.level) && BranchRefusal(source, options.level, line, r.error)
      else if |kept| > knowledge.maximumLines then
        r == Err(BuildError("official-program-line-limit", Some(kept[knowledge.maximumLines] + 1)))
      else r.Ok?
  {
    hide ReadableLines, CompactLines, SourceLines, Collect, Acyclic, NamesAreIdentifiers, Sound, CodeOf, Surviving,
        KeptLines, BranchRefused, BranchRefusal, Invalid, Optimized, SurvivingLines, KeptOf, LinesToBuild;
    InvalidHasErrors(source, knowledge);
    OptimizedOutcome(source, options.level);
    if VersionFits(options, knowledge) && !HasErrors(source, knowledge) {
      match Optimized(options.level, SourceLines(source))
      case Ok(a) => OptimizedCount(source, options.level, a);
      case Err(e) =>
    }
  }

  /** The unoptimized level knows no branches and counts the lines of the stripped source. */
  lemma ExactOutcome(source: string, options: Options, knowledge: Knowledge)
    requires options.level.ExactLevel?
    ensures var r, code := BuildResult(source, options, knowledge), StripIndent(true, source);
      if !VersionFits(options, knowledge) then r == Err(BuildError("game-version-mismatch", None))
      else if Invalid(source, knowledge) then r == Err(BuildError("validation", None))
      else if |SourceLines(code)| > knowledge.maximumLines then
        r.Err? && r.error.code == "official-program-line-limit"
      else
        r.Ok? && r.value.code == code && r.value.adjustedRelative == r.value.adjustedAbsolute == 0
        && r.value.savedLines + |SourceLines(code)| == |SourceLines(source)|
        && r.value.sourceMap == Identity(|SourceLines(code)|)
  {
    hide SourceLines, Invalid, HasErrors, StripIndent;
    InvalidHasErrors(source, knowledge);
    StripKeepsCount(source);
  }

  /** Stripping indentation may lose a blank last line, and no other. */
  lemma StripKeepsCount(source: string)
    ensures |SourceLines(StripIndent(true, source))| <= |SourceLines(source)|
  {
    hide ParseLine, StripIndent, Pieces;
    ExactKeepsProgram(source);
    var p, q := SourceProgram(source), SourceProgram(StripIndent(true, source));
    assert |p| == |SourceLines(source)| && |q| == |SourceLines(StripIndent(true, source))|;
  }

  /** What an accepted build reports of itself. */
  lemma BuildReport(source: string, options: Options, knowledge: Knowledge, out: BuildOutput)
    requires Optimizes(source, options, knowledge, out)
    ensures var kept := SurvivingLines(source, options.level);
      && out.sourceMap == seq(|kept|, g requires 0 <= g < |kept| => MapEntry(g + 1, kept[g] + 1))
      && |SourceProgram(out.code)| == |kept| && out.savedLines + |kept| == |SourceLines(source)|
  {
    hide ReadableLines, CompactLines, SourceLines, HasErrors, Sound, CodeOf, Surviving, KeptLines, Optimized,
        SurvivingLines, KeptOf;
    var a := Optimized(options.level, SourceLines(source)).value;
    NoErrorsNames(source, knowledge);
    OptimizedCount(source, options.level, a);
  }

  lemma NoErrorsNames(source: string, knowledge: Knowledge)
    requires !HasErrors(source, knowledge)
    ensures NamesAreIdentifiers(SourceProgram(source))
  {}

  /** A readable build counts exactly the branches it rewrote. */
  lemma ReadableCounts(source: string, options: Options, knowledge: Knowledge, out: BuildOutput)
    returns (lines: seq<OutputLine>)
    requires Optimizes(source, options, knowledge, out) && options.level.ReadableLevel?
    ensures out.code == CodeOf(lines) && |lines| == |KeptLines(SourceLines(source))|
    ensures out.adjustedRelative == Rewritten(KeptLines(SourceLines(source)), lines, true, |lines|)
    ensures out.adjustedAbsolute == Rewritten(KeptLines(SourceLines(source)), lines, false, |lines|)
  {
    hide ReadableLines, CompactLines, SourceLines, HasErrors, Sound, CodeOf, KeptLines, Rewritten, Refused;
    ReadableOutcome(SourceLines(source));
    lines := ReadableLines(SourceLines(source)).value.lines;
  }
}
