/** What a finished build promises about the program it was made from. */
module Preservation {
  import opened Prelude
  import opened Text
  import opened Registers
  import opened Symbols
  import opened Machine
  import opened Relinking
  import opened Carrying
  import opened Words
  import opened Lines
  import opened Adjusting
  import opened Readable
  import opened Compact
  import opened NameTransfer
  import opened CompactText
  import opened CompactRuns
  import opened Transparency
  import opened Build

  function SourceProgram(source: string): seq<LineKind> { ProgramOf(SourceLines(source)) }

  /** The surviving source lines, read off a source map. */
  function MappedLines(entries: seq<MapEntry>): (kept: seq<nat>)
    ensures |kept| == |entries|
  {
    seq(|entries|, g requires 0 <= g < |entries| => if entries[g].sourceLine > 0 then entries[g].sourceLine - 1 else 0)
  }

  /** The source lines a build at this level keeps: those with code, and in a compact build those left of them. */
  function SurvivingLines(source: string, level: OptimizationLevel): seq<nat> {
    KeptOf(if level.CompactLevel? then Surviving(SourceLines(source)) else KeptLines(SourceLines(source)))
  }

  /** What the theorems about an optimizing build need of its source beyond acceptance. */
  ghost predicate Sound(source: string, level: OptimizationLevel) {
    && QuotesClosed(SourceLines(source))
    && (level.CompactLevel? ==>
          var p := SourceProgram(source); Lawful(p) && QuotedWordsFree(p))
  }

  /** The condition for lockstep: on the source alone, and the lines of it that the build will keep. */
  ghost predicate Portable(source: string, level: OptimizationLevel) {
    && LineBlind(SourceProgram(source), SurvivingLines(source, level))
    && (level.CompactLevel? ==> Transparent(SourceProgram(source)))
  }

  ghost predicate Optimizes(source: string, options: Options, knowledge: Knowledge, out: BuildOutput) {
    !options.level.ExactLevel? && BuildResult(source, options, knowledge) == Ok(out) && Sound(source, options.level)
  }

  /** The generated lines behind an accepted build. */
  lemma BuiltLines(source: string, options: Options, knowledge: Knowledge, out: BuildOutput)
    returns (lines: seq<OutputLine>)
    requires Optimizes(source, options, knowledge, out)
    ensures if options.level.CompactLevel? then CompactFrom(SourceLines(source), lines)
            else BuiltFrom(SourceLines(source), lines)
    ensures out.code == CodeOf(lines) && out.sourceMap == SourceMap(KeptOf(lines), |SourceLines(out.code)|)
    ensures |SourceLines(out.code)| <= knowledge.maximumLines
  {
    hide ReadableLines, CompactLines, SourceLines, NamesAreIdentifiers, Acyclic, Lawful, QuotedWordsFree,
        QuotesClosed, CodeOf, KeptOf, SourceMap;
    SourceLinesHaveNoNewline(source);
    lines := Optimized(options.level, SourceLines(source)).value.lines;
  }

  /** The source map of an accepted build lists the surviving lines, and the build fits the line limit. */
  lemma BuildIsMapped(source: string, options: Options, knowledge: Knowledge, out: BuildOutput)
    requires Optimizes(source, options, knowledge, out)
    ensures MappedLines(out.sourceMap) == SurvivingLines(source, options.level)
    ensures |SourceProgram(out.code)| <= knowledge.maximumLines
  {
    hide BuildResult, ReadableLines, CompactLines, SourceLines, Sound, CodeOf, BuiltFrom, CompactFrom, Surviving,
        KeptLines;
    var lines := BuiltLines(source, options, knowledge, out);
    if options.level.CompactLevel? {
      CompactReads(SourceLines(source), lines);
      CompactKept(SourceLines(source), lines);
    } else {
      BuildReads(SourceLines(source), lines);
      SameKept(SourceLines(source), lines);
    }
    assert |SourceLines(out.code)| == |lines|;
    assert MappedLines(out.sourceMap) == KeptOf(lines);
  }

  /** An accepted build carries its source over. */
  lemma BuildIsCarried(source: string, options: Options, knowledge: Knowledge, out: BuildOutput)
    requires Optimizes(source, options, knowledge, out)
    requires options.level.CompactLevel? ==> Transparent(SourceProgram(source))
    ensures Carried(SourceProgram(source), SourceProgram(out.code), SurvivingLines(source, options.level))
  {
    hide BuildResult, ReadableLines, CompactLines, SourceLines, Sound, CodeOf, Carried, BuiltFrom, CompactFrom,
        Surviving, KeptLines, Transparent;
    var lines := BuiltLines(source, options, knowledge, out);
    if options.level.CompactLevel? {
      CompactReads(SourceLines(source), lines);
      CompactIsCarried(SourceLines(source), lines);
      CompactKept(SourceLines(source), lines);
    } else {
      BuildReads(SourceLines(source), lines);
      ReadableIsCarried(SourceLines(source), lines);
      SameKept(SourceLines(source), lines);
    }
  }

  /** Accepted builds of portable sources run in lockstep with them: every engine, start and number of steps. */
  lemma BuildPreservesRuns<S>(source: string, options: Options, knowledge: Knowledge, out: BuildOutput, e: Engine<S>,
                              c: Config<S>, n: nat)
    requires Optimizes(source, options, knowledge, out) && Portable(source, options.level)
    ensures var p, q, kept := SourceProgram(source), SourceProgram(out.code), SurvivingLines(source, options.level);
      Run(q, e, Moved(kept, |p|, c), n) == Moved(kept, |p|, Run(p, e, c, n))
  {
    hide SourceProgram, Optimizes, Carried, LineBlind, SurvivingLines, Transparent;
    BuildIsCarried(source, options, knowledge, out);
    BlindRunMoves(SourceProgram(source), SourceProgram(out.code), SurvivingLines(source, options.level), e, c, n);
  }

  /** Portable sources are exactly the ones whose build no step of a probing engine tells from them. */
  lemma BuildRunsExactly(source: string, options: Options, knowledge: Knowledge, out: BuildOutput)
    requires Optimizes(source, options, knowledge, out)
    ensures var p, q, kept := SourceProgram(source), SourceProgram(out.code), SurvivingLines(source, options.level);
      (forall v: nat, c :: !DivergesFor(p, q, kept, v, c)) <==> Portable(source, options.level)
  {
    hide SourceProgram, Optimizes, Portable, DivergesFor, SurvivingLines;
    var p, q, kept := SourceProgram(source), SourceProgram(out.code), SurvivingLines(source, options.level);
    if Portable(source, options.level) {
      forall v: nat, c ensures !DivergesFor(p, q, kept, v, c) { PortableAgrees(source, options, knowledge, out, v, c); }
    } else {
      var v, c := OtherDiverges(source, options, knowledge, out);
    }
  }

  lemma PortableAgrees(source: string, options: Options, knowledge: Knowledge, out: BuildOutput, v: nat,
                       c: Config<Seen>)
    requires Optimizes(source, options, knowledge, out) && Portable(source, options.level)
    ensures !DivergesFor(SourceProgram(source), SourceProgram(out.code), SurvivingLines(source, options.level), v, c)
  {
    hide SourceProgram, Optimizes, Portable, SurvivingLines, Step, Moved, Probe;
    var p, kept := SourceProgram(source), SurvivingLines(source, options.level);
    BuildPreservesRuns(source, options, knowledge, out, Probe(v), c, 1);
    OneStep(p, Probe(v), c);
    OneStep(SourceProgram(out.code), Probe(v), Moved(kept, |p|, c));
  }

  /** One step shows that a source is not portable. */
  lemma OtherDiverges(source: string, options: Options, knowledge: Knowledge, out: BuildOutput)
    returns (v: nat, c: Config<Seen>)
    requires Optimizes(source, options, knowledge, out) && !Portable(source, options.level)
    ensures DivergesFor(SourceProgram(source), SourceProgram(out.code), SurvivingLines(source, options.level), v, c)
  {
    hide BuildResult, SourceLines, Sound, CodeOf, Carried, BuiltFrom, CompactFrom, Surviving, KeptLines, Transparent,
        LineBlind, DivergesFor, ProgramOf, KeptOf;
    if options.level.CompactLevel? && !Transparent(SourceProgram(source)) {
      var lines := BuiltLines(source, options, knowledge, out);
      CompactReads(SourceLines(source), lines);
      CompactKept(SourceLines(source), lines);
      v, c := OpaqueDiverges(SourceLines(source), lines);
    } else {
      BuildIsCarried(source, options, knowledge, out);
      var p := SourceProgram(source);
      var i := NotBlindDiverges(p, SourceProgram(out.code), SurvivingLines(source, options.level));
      v, c := |p|, StartAt(i, |p|);
    }
  }

  /** If the language accepts the generated code, building it again changes nothing: same code, identity source map. */
  lemma ReadableBuildAgain(source: string, options: Options, knowledge: Knowledge, out: BuildOutput)
    requires Optimizes(source, options, knowledge, out) && options.level.ReadableLevel? && !knowledge.rejects(out.code)
    ensures BuildResult(out.code, options, knowledge) ==
        Ok(BuildOutput(out.code, Identity(|SourceLines(out.code)|), 0, 0, 0))
  {
    VersionMatches(source, options, knowledge, out);
    hide BuildResult, ReadableLines, CompactLines, SourceLines, HasErrors, CodeOf, BuiltFrom, Optimizes, Renumbered,
        SourceMap, Sound;
    var lines := BuiltLines(source, options, knowledge, out);
    ReadableIsIdempotent(SourceLines(source), lines);
    BuildReads(SourceLines(source), lines);
    NoNewErrors(source, options, knowledge, out, lines);
    assert |SourceLines(out.code)| == |lines|;
    AgainResult(out.code, options, knowledge, lines);
  }

  lemma VersionMatches(source: string, options: Options, knowledge: Knowledge, out: BuildOutput)
    requires Optimizes(source, options, knowledge, out)
    ensures options.gameVersion.None? || options.gameVersion.value == knowledge.gameVersion
  {
    hide HasErrors, Finish, FinishExact, Optimized, Sound;
  }

  /** A readable build declares what its source declares. */
  lemma NoNewErrors(source: string, options: Options, knowledge: Knowledge, out: BuildOutput, lines: seq<OutputLine>)
    requires Optimizes(source, options, knowledge, out) && BuiltFrom(SourceLines(source), lines)
    requires out.code == CodeOf(lines)
    requires !knowledge.rejects(out.code)
    ensures !HasErrors(out.code, knowledge)
  {
    assert Acyclic(Collect(SourceProgram(source))) && NamesAreIdentifiers(SourceProgram(source)) by {
      AcceptedNames(source, options, knowledge, out);
    }
    hide Optimizes, BuiltFrom, Thinned, SourceLines, CodeOf, Collect, NamesAreIdentifiers, Acyclic, KindsOf;
    BuildThins(SourceLines(source), lines);
    BuildReads(SourceLines(source), lines);
    ThinnedNames(SourceProgram(source), SourceProgram(out.code), KeptOf(lines));
    SameValuesSameCycles(Collect(SourceProgram(source)), Collect(SourceProgram(out.code)));
  }

  lemma AcceptedNames(source: string, options: Options, knowledge: Knowledge, out: BuildOutput)
    requires Optimizes(source, options, knowledge, out)
    ensures Acyclic(Collect(SourceProgram(source))) && NamesAreIdentifiers(SourceProgram(source))
  {
    hide Collect, NamesAreIdentifiers, Acyclic, Sound, Optimized, Finish, FinishExact;
  }

  lemma AgainResult(code: string, options: Options, knowledge: Knowledge, lines: seq<OutputLine>)
    requires (options.gameVersion.None? || options.gameVersion.value == knowledge.gameVersion)
    requires options.level.ReadableLevel?
    requires !HasErrors(code, knowledge) && |SourceLines(code)| == |lines| <= knowledge.maximumLines
    requires ReadableLines(SourceLines(code)) == Ok(Adjusted(Renumbered(lines), 0, 0))
    requires CodeOf(Renumbered(lines)) == code
    ensures BuildResult(code, options, knowledge) == Ok(BuildOutput(code, Identity(|SourceLines(code)|), 0, 0, 0))
  {
    hide HasErrors, ReadableLines, CompactLines, SourceLines, CodeOf;
    assert SourceMap(KeptOf(Renumbered(lines)), |lines|) == Identity(|lines|);
  }

  function Identity(n: nat): seq<MapEntry> { seq(n, g requires 0 <= g => MapEntry(g + 1, g + 1)) }

  // ----- the unoptimized level -----

  function TrimIndent(line: string): string {
    if line != [] && IsIndent(line[0]) then TrimIndent(line[1..]) else line
  }

  function TrimIndents(lines: seq<string>): (r: seq<string>)
    ensures |r| == |lines|
  {
    seq(|lines|, i requires 0 <= i < |lines| => TrimIndent(lines[i]))
  }

  /** Equal, but for a blank last line that indentation alone had kept alive. */
  predicate SameButBlankEnd(a: seq<string>, b: seq<string>) { a == b || a == b + [[]] }

  lemma {:induction false} TrimIndentAppend(line: string, c: char)
    ensures TrimIndent(line + [c]) == if TrimIndent(line) == [] && IsIndent(c) then [] else TrimIndent(line) + [c]
  {
    if line == [] {
      assert [c][1..] == [] && line + [c] == [c];
      assert TrimIndent([]) == [];
    } else {
      assert (line + [c])[1..] == line[1..] + [c];
      if IsIndent(line[0]) { TrimIndentAppend(line[1..], c); }
    }
  }

  lemma TrimIndentsCons(line: string, lines: seq<string>)
    ensures TrimIndents([line] + lines) == [TrimIndent(line)] + TrimIndents(lines)
  {}

  lemma {:induction false} StripIndentPieces(line: string, s: string)
    ensures SameButBlankEnd(TrimIndents(Pieces(line, s)),
        Pieces(TrimIndent(line), StripIndent(TrimIndent(line) == [], s)))
    decreases |s|
  {
    if s == [] {
      if line != [] { TrimIndentsCons(line, []); assert [line] + [] == [line] && TrimIndents([]) == []; }
    } else if s[0] == '\n' {
      StripIndentPieces([], s[1..]);
      TrimIndentsCons(line, Pieces([], s[1..]));
      var rest := StripIndent(true, s[1..]);
      assert (['\n'] + rest)[1..] == rest;
    } else {
      TrimIndentAppend(line, s[0]);
      StripIndentPieces(line + [s[0]], s[1..]);
      if !(TrimIndent(line) == [] && IsIndent(s[0])) {
        var rest := StripIndent(false, s[1..]);
        assert ([s[0]] + rest)[1..] == rest;
      }
    }
  }

  lemma {:induction false} TrimIndentKeepsReturn(line: string)
    ensures StripReturn(TrimIndent(line)) == TrimIndent(StripReturn(line))
  {
    if line != [] && IsIndent(line[0]) {
      TrimIndentKeepsReturn(line[1..]);
      assert line[|line| - 1] == '\r' ==> StripReturn(line)[1..] == StripReturn(line[1..]);
    }
  }

  lemma {:induction false} TrimIndentKeepsKind(line: string)
    ensures ParseLine(TrimIndent(line)).kind == ParseLine(line).kind
  {
    if line != [] && IsIndent(line[0]) {
      TrimIndentKeepsKind(line[1..]);
      var w, rest := line[0], line[1..];
      assert line == [w] + rest;
      if CommentStart(Outside, rest).Some? {
        assert CodePart(line) == [w] + CodePart(rest);
      }
      SpaceSkipped(w, CodePart(rest));
    }
  }

  /** Without optimization the program stays the same, but for a blank last line. */
  lemma ExactKeepsProgram(source: string)
    ensures var p, q := SourceProgram(source), SourceProgram(StripIndent(true, source)); p == q || p == q + [Empty]
  {
    hide ParseLine, StripIndent, Pieces;
    StripIndentPieces([], source);
    assert TrimIndent([]) == [];
    var a, b := Pieces([], source), Pieces([], StripIndent(true, source));
    forall i | 0 <= i < |a| ensures ParseLine(StripReturn(TrimIndent(a[i]))).kind == ParseLine(StripReturn(a[i])).kind {
      TrimIndentKeepsReturn(a[i]);
      TrimIndentKeepsKind(StripReturn(a[i]));
    }
    assert ParseLine([]).kind == Empty by { BlankParses(); }
    assert StripReturn([]) == [];
    KindsOfTrimmed(a, b);
  }

  /** No line of the stripped source starts with a space or a tab. */
  lemma {:induction false} StrippedStarts(atStart: bool, s: string, i: nat)
    requires i < |StripIndent(atStart, s)|
    requires if i == 0 then atStart else StripIndent(atStart, s)[i - 1] == '\n'
    ensures StripIndent(atStart, s)[i] != ' ' && StripIndent(atStart, s)[i] != '\t'
    decreases |s|
  {
    if atStart && IsIndent(s[0]) {
      StrippedStarts(true, s[1..], i);
    } else if i > 0 {
      StrippedStarts(s[0] == '\n', s[1..], i - 1);
    }
  }

  lemma BlankParses()
    ensures ParseLine([]).kind == Empty
  {}

  lemma KindsOfTrimmed(a: seq<string>, b: seq<string>)
    requires SameButBlankEnd(TrimIndents(a), b) && ParseLine([]).kind == Empty && StripReturn([]) == []
    requires forall i ::
        0 <= i < |a| ==> ParseLine(StripReturn(TrimIndent(a[i]))).kind == ParseLine(StripReturn(a[i])).kind
    ensures var p, q := ProgramOf(Stripped(a)), ProgramOf(Stripped(b)); p == q || p == q + [Empty]
  {
    hide ParseLine, StripReturn, TrimIndent;
    var t := TrimIndents(a);
    var p, q := ProgramOf(Stripped(a)), ProgramOf(Stripped(b));
    if t == b {
      assert p == q;
    } else {
      assert |t| == |b| + 1 && t[|b|] == [] && forall i :: 0 <= i < |b| ==> t[i] == b[i];
      forall i | 0 <= i < |a| ensures p[i] == (q + [Empty])[i] { assert t[i] == TrimIndent(a[i]); }
      assert p == q + [Empty];
    }
  }

  lemma BlankEndKeepsNext(q: seq<LineKind>, pc: nat)
    ensures NextOperation(q + [Empty], pc) == NextOperation(q, pc)
    decreases |q| - pc
  {
    if pc < |q| { BlankEndKeepsNext(q, pc + 1); }
  }

  lemma BlankEndKeepsNames(q: seq<LineKind>, directive: string, t: string)
    ensures Binding(q + [Empty], directive, t) == Binding(q, directive, t)
    ensures LabelLine(q + [Empty], t) == LabelLine(q, t)
  {
    assert (q + [Empty])[..|q|] == q;
  }

  lemma BlankEndKeepsResolve(q: seq<LineKind>, t: string)
    ensures Resolve(q + [Empty], t) == Resolve(q, t)
  {
    hide Binding, LabelLine, Follow;
    forall directive, u
      ensures Binding(q + [Empty], directive, u) == Binding(q, directive, u)
    {
      BlankEndKeepsNames(q, directive, u);
    }
    FollowSame(q, q + [Empty], "alias", t, HOPS);
    var w := Follow(q, "alias", t, HOPS);
    FollowSame(q, q + [Empty], "define", w, HOPS);
    BlankEndKeepsNames(q, "alias", Follow(q, "define", w, HOPS));
  }

  lemma BlankEndKeepsRead(q: seq<LineKind>, role: Role, t: string)
    ensures Read(q + [Empty], role, t) == Read(q, role, t)
  {
    hide Binding, LabelLine, Follow, Resolve, Read, Rank;
    var n := |q|;
    var all := seq(n, i => i);
    forall u ensures Follow(q + [Empty], "alias", u, HOPS) == Follow(q, "alias", u, HOPS) {
      forall directive, v
        ensures Binding(q + [Empty], directive, v) == Binding(q, directive, v)
      {
        BlankEndKeepsNames(q, directive, v);
      }
      FollowSame(q, q + [Empty], "alias", u, HOPS);
    }
    forall u ensures Resolve(q + [Empty], u) == MovedOperand(all, n, Resolve(q, u)) {
      BlankEndKeepsResolve(q, u);
      NothingMovesOperand(all, n, Resolve(q, u));
    }
    ReadMoves(q, q + [Empty], all, n, role, t);
    NothingMovesOperand(all, n, Read(q, role, t));
  }

  lemma BlankEndKeepsQuantity(q: seq<LineKind>, t: string)
    ensures ReadQuantity(q + [Empty], t) == ReadQuantity(q, t)
  {
    BlankEndKeepsRead(q, Quantity, t);
  }

  lemma BlankEndKeepsPerform<S>(q: seq<LineKind>, e: Engine<S>, i: nat, k: LineKind, c: Config<S>)
    requires k.Instruction?
    ensures Perform(q + [Empty], e, i, k, c) == Perform(q, e, i, k, c)
  {
    hide Read, ReadQuantity, DataOperands, NamesReturnAddress, IsBranch, IsJump, IsRelative, Links, Lower, RoleOf;
    forall role, t ensures Read(q + [Empty], role, t) == Read(q, role, t) { BlankEndKeepsRead(q, role, t); }
    forall t ensures ReadQuantity(q + [Empty], t) == ReadQuantity(q, t) { BlankEndKeepsQuantity(q, t); }
    forall m, ts ensures ReadAll(q + [Empty], m, ts) == ReadAll(q, m, ts) {}
  }

  lemma BlankEndKeepsStep<S>(q: seq<LineKind>, e: Engine<S>, c: Config<S>)
    ensures Step(q + [Empty], e, c) == Step(q, e, c)
  {
    hide Perform;
    BlankEndKeepsNext(q, c.pc);
    match NextOperation(q, c.pc)
    case None =>
    case Some(i) => BlankEndKeepsPerform(q, e, i, q[i], c);
  }

  lemma {:induction false} BlankEndKeepsRuns<S>(q: seq<LineKind>, e: Engine<S>, c: Config<S>, n: nat)
    ensures Run(q + [Empty], e, c, n) == Run(q, e, c, n)
    decreases n
  {
    if n > 0 {
      BlankEndKeepsStep(q, e, c);
      BlankEndKeepsRuns(q, e, Step(q, e, c), n - 1);
    }
  }

  /** Every unoptimized build runs exactly like its source. */
  lemma ExactBuildRunsAlike<S>(source: string, options: Options, knowledge: Knowledge, out: BuildOutput, e: Engine<S>,
                          c: Config<S>, n: nat)
    requires options.level.ExactLevel? && BuildResult(source, options, knowledge) == Ok(out)
    ensures Run(SourceProgram(out.code), e, c, n) == Run(SourceProgram(source), e, c, n)
  {
    hide SourceProgram, StripIndent, HasErrors, Run;
    ExactKeepsProgram(source);
    BlankEndKeepsRuns(SourceProgram(out.code), e, c, n);
  }
}
