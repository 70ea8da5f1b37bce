# Stationeers IC10 tools: a verified model

A Dafny model of four parts of the repository, and proofs about them.

* **The deployment compiler** (`Text`, `Literals`, `Registers`, `Symbols`, `Machine`, `Relinking`, `Environment`, `Carrying`, `Words`, `Lines`, `Adjusting`, `Readable`, `Compact`, `NameTransfer`, `CompactText`, `CompactRuns`, `Build`, `Preservation`, `Transparency`, `Necessity`, `Duplicates`, `Acceptance`, `Stepping`). `Machine` is a small-step IC10 machine over parsed lines; what an instruction computes is an arbitrary engine, what the machine fixes is the program counter, the return address, the line its housing shows, the symbol tables, and how an operand is read: aliases first, then registers, device pins, logic names and batch modes, and only then defines and labels. The compiler works on text, as the original does. A build is read back with the same parser and compared, run against run, with its source.
* **The debugger's reversible history** (`Simulation`, `Timeline`, `Recording`, `Retention`, `Replay`, `History`, `Session`, `StateDiff`, `Journalling`). A deterministic engine over an opaque state, a class with the history's fields, and a remembered past that no operation may falsify.
* **The relay authority** (`RelayGate`, `Relay`, `RelaySafety`, `RelayRuns`, `RelayVerdicts`). Every lock region is one atomic step; submitters, workers behind a semaphore, completion and disposal interleave freely.
* **Parsers, printers and analyses against simple specifications**: the formatter (`Format`), control flow (`Flow`, `FlowRuns`, `FlowTargets`, `FlowExact`, `FlowStrays`), the expression evaluator (`Evaluator`, `Expressions`, `ExpressionRuns`, `Arithmetic`), the scenario monitor (`Monitor`), UTF-16 positions (`Positions`), rename (`Rename`, `DocumentRename`) and edit distance (`Distance`).

## What the proofs found

* A build, if compact then of a lawful source (below), runs in lockstep with its source **exactly when** the source is *portable* (`Preservation.Portable`, `Preservation.BuildPreservesRuns`, `Preservation.BuildRunsExactly`), which a caller can check before building: it is stated on the source and the lines the build will keep (`Preservation.SurvivingLines`). Otherwise an engine exists that tells the two programs apart in one step. Portable means *line-blind*, and in a compact build also *transparent*.
  * *Line-blind* (`Carrying.LineBlind`): no line is deleted, or no operation may read the return address, or a moving line number, as data; no load on a moving line may read the field `LineNumber`, in which the housing shows the line it is at; and no branch the compiler leaves alone has a target, other than a label, that may move. `bdse`, `bdns`, `bdnvl` and `bdnvs` are such branches (`Necessity.UntranslatedBranchGoesAstray` is an accepted build that goes wrong); `# c`, `l r0 db LineNumber` loads line 1 in the source and line 0 in its build (`Necessity.LineNumberMoves`).
  * *Transparent* (`NameTransfer.Transparent`): the compiler replaces or deletes a name wherever it stands as an operand, and not inside one; the machine first asks whether the operand is a register, a pin, a logic name or a batch mode, and looks names up inside operands such as `dr0` or `r0:1` too. Transparency says for each operand, in its role, and for each branch target that this makes no difference. **Every** accepted compact build of a lawful source that is not transparent differs in one step (`Transparency.MisreadDiverges`, `Transparency.MisreadTargetDiverges`). `define r0 5`, `move r1 r0` is such a source (`Necessity.ReservedDefineIsMisread`).
* The compiler refuses a source for four reasons, looked at in this order, and for nothing else: the game version, a validation error, a branch that cannot be completed, too many lines (`Acceptance.BuildOutcome`).
* Beyond acceptance, the theorems about compact builds ask that the source be lawful (`NameTransfer.Lawful`, `CompactText.QuotedWordsFree`), every clause a check on the source text or its symbol table. One of them is also shown to be needed:
  * *No duplicate declarations.* The symbol table keeps the first declaration of a label, the machine the last: `x:`, `yield`, `x:`, `j x` is accepted and its jump goes to another line (`Duplicates.DuplicateLabelDiverges`).
* A retained state is restorable exactly when no record between its checkpoint and it was *disturbed* (`Replay.RestoreIsExact`, `Replay.RestorableExactly`): a stop recorded in a state with another hash than the state before it, or a record that drained writes the journal still held. The run loop looks for the next instruction before it tests breakpoints, and that look can start a new tick; a breakpoint hit there records a stop that does not restore (`Replay.BreakpointOnNewTickBreaksRestore`), and its writes turn up in the record after it. In any session only a stop, or the record directly after one, stands in the way (`Session.OnlyStopsHinder`).
* If the engine's steps journal what they change, `state_diff` is a correct patch in every session without a moved stop (`Journalling.SessionDiffIsPatch`). With moved stops each other record still lists exactly what changed since an earlier remembered state with only stops in between (`Journalling.RecordsDrainStops`).
* Recording forgets no more than its two limits require (`Retention.StoredSpares`, `Retention.EvictedSpares`). Its memory estimate counts the sources only once it has been computed anew; before that it is lower by their size (`Retention.RecordingIsWeighed`).
* With a checkpoint interval no larger than the event limit, the fallback of count eviction (push a checkpoint and drop everything) is never taken (`Timeline.EvictionFindsAnAnchor`). In the relay, the trim that follows a completion never evicts anything (`RelaySafety.CompleteNeverEvicts`).
* The evaluator's signs do not reach into parentheses: `-(a)` asks for an atom named `(a)` (`ExpressionRuns.SignStopsAtParens`).
* A plain assertion of a run that ends without an error goes unreported exactly if it holds at the end, or if the runner's tick limit is below the case's and was reached (`Monitor.RunCase`, `Monitor.PlainIsDecided`); the second happens (`Monitor.SkippedPlainExists`).
* Some run executes a line reported unreachable **exactly when** a branch that is surely reached leads the machine to one (`FlowRuns.ReportedRunsExactly`). It happens: the analysis takes a label on a relative branch for its line, the machine for an offset (`FlowStrays.RelativeLabelStrays`), and it does not know the four branches above (`FlowStrays.UnknownBranchStrays`). In programs without such branches it never does (`FlowTargets.ReportedNeverRuns`), and if they have no `jal` and no branch without a target either, exactly the operations that no run executes are reported (`FlowExact.ReportedExactlyDead`).
* Renaming a symbol and renaming it back restores the document exactly, if and only if the symbol is not a label declared again (`DocumentRename.RenameThereAndBack`); otherwise the way back is refused.

## Model

| member | source | states |
|---|---|---|
| Text.FindComment | crates/ic10-core/src/lib.rs:375-391 | the scan with its two flags finds the comment of the quote automaton: the first `#` outside quotes |
| Text.SplitTokens | crates/ic10-core/src/lib.rs:393-426 | the scan with its flags yields the tokens of the quote automaton: maximal runs without a space outside quotes |
| Text.TokensSplit | crates/ic10-core/src/lib.rs:399-408 | a space outside quotes separates the tokens before it from the tokens after it |
| Text.PiecesOfUnlines | crates/ic10-core/src/lib.rs:246-255 | writing lines out and splitting them again gives the lines back |
| Text.TrimKeeps | crates/ic10-build/src/lib.rs:206-216 | trimming code with closed quotes keeps its tokens and leaves a clean line, or nothing when it had none |
| Literals.IntTextParses | crates/ic10-core/src/analysis.rs:589-611 | a printed branch target reads back as the same integer, of either sign |
| Literals.RadixTextParses | crates/ic10-core/src/analysis.rs:589-611 | hexadecimal and binary spellings, with each prefix and either sign, denote the number they spell |
| Literals.LabelLineReads | crates/ic10-core/src/lib.rs:428-443 | a name and a colon alone on a line are a label of that name; without the colon they are an instruction |
| Literals.IdentifiersAreNotIntegers | crates/ic10-core/src/lib.rs:636-640 | no valid symbol name is an integer literal |
| Registers.LiteralIsNotReserved | crates/ic10-sim/src/simulator.rs:2693-2719 | no integer literal names a register, direct or indirect, or begins like a device |
| Symbols.CollectDeclarations | crates/ic10-core/src/lib.rs:445-556 | the declaration loop builds the first-wins symbol table and reports exactly the invalid names |
| Symbols.ResolveDefineLoop | crates/ic10-build/src/lib.rs:630-643 | the loop with its visited set terminates and computes the define resolution |
| Symbols.ResolveDefineIsTotal | crates/ic10-build/src/lib.rs:630-643 | resolution fails exactly on a cyclic chain, and otherwise gives the end of the chain, which is no define |
| Symbols.CyclesAreFound | crates/ic10-core/src/analysis.rs:182-206 | over any table, the cycle diagnostic reports a symbol if and only if following values of every kind from it never leaves the symbols that have one |
| Symbols.AcyclicDefinesResolve | crates/ic10-build/src/lib.rs:233-244 | without cycle errors every define resolves in one pass to something that is no define |
| Symbols.PrivateAliasesAre | crates/ic10-build/src/lib.rs:245-250 | the listed private aliases are exactly the alias symbols whose name starts with an underscore |
| Symbols.ShortNamesAreFresh | crates/ic10-build/src/lib.rs:252-262 | short names are pairwise distinct, differ from every declared name, and are found in finitely many tries |
| Symbols.PrivateAliasesInOrder | crates/ic10-build/src/lib.rs:245-250 | the private aliases are listed in the order of their names, each once |
| Symbols.ShortNamesCount | crates/ic10-build/src/lib.rs:252-262 | the i-th of them gets `a` and the number i, behind as few further `a`s as make it new |
| Environment.LabelLineIsLast | crates/ic10-sim/src/program.rs:51-55 | the machine's label table gives the last line of a label, and none only if there is none |
| Environment.BindingIsLast | crates/ic10-sim/src/program.rs:58-64 | the machine's alias and define tables give the value of the last complete directive for a name |
| Machine.NextOperation | crates/ic10-sim/src/program.rs:94-96 | the operation executed is the first at or after the program counter, labels, blanks and directives being passed over |
| Stepping.JumpGoes | crates/ic10-sim/src/simulator.rs:2256-2329 | a jump with a fixed target goes there, a `jal` remembering the next line, and stops the machine if the target is negative |
| Stepping.LiteralTarget | crates/ic10-sim/src/simulator.rs:2256-2329 | a literal target counts from the start, or from the branch itself if that is relative |
| Stepping.NotTakenGoesOn | crates/ic10-sim/src/simulator.rs:2256-2329 | a conditional branch not taken goes on with the next line, and one whose condition cannot be read stops the machine |
| Stepping.CallReturns | crates/ic10-sim/src/simulator.rs:2256-2329 | `jal` to a line that says `j ra` comes back to the line after the call |
| Stepping.ExecutesOnce | crates/ic10-sim/src/simulator.rs:895-960 | an operation that does not branch is executed with its operands, the lines passed over having no effect, and the next line follows |
| Lines.KeepLines | crates/ic10-build/src/lib.rs:206-230 | the loop keeps exactly the lines with code, trimmed, with their source line and parsed fields |
| Lines.GeneratedLineMap | crates/ic10-build/src/lib.rs:589-595 | the in-place loop computes the line map |
| Lines.LineMapAt | crates/ic10-build/src/lib.rs:589-595 | an entry of the map is the generated line whose source it is, and empty exactly for deleted lines |
| Lines.TranslateIsBelow | crates/ic10-build/src/lib.rs:597-599 | a target translates to the number of kept lines before it, and to nothing when none is left at or after it |
| Lines.TranslateIsLowerAdjoint | crates/ic10-build/src/lib.rs:589-599 | `translate(t)` exists and is at most `g` if and only if `t` is at most the source line of `g` |
| Lines.AdjustBranches | crates/ic10-build/src/lib.rs:351-430 | the in-place loop with its counters and early errors computes the adjusted lines, counts and first error |
| Adjusting.LiteralIsRelinked | crates/ic10-build/src/lib.rs:394-419 | an accepted literal target lies in the source and its new value names the rank of the line it named, relative or absolute |
| Adjusting.AdjustedTarget | crates/ic10-build/src/lib.rs:355-430 | every branch of an accepted build goes to the moved destination, whether rewritten, left alone as a label, or left alone because nothing was deleted |
| Adjusting.RetargetedKind | crates/ic10-build/src/lib.rs:420-424 | printing a new target changes the last operand only, and the text still parses to the fields |
| Adjusting.CodeLines | crates/ic10-build/src/lib.rs:432-442 | the generated code reads back as the generated lines |
| Words.ReplaceEveryToken | crates/ic10-build/src/lib.rs:601-617 | the character loop with its appended and dropped space computes the replacement of whitespace-separated words |
| Words.ReplaceTokensTokens | crates/ic10-build/src/lib.rs:601-617 | replacing words replaces exactly the tokens, when no word inside quotes is replaced, and keeps the line well formed |
| Words.ReplaceLastTokenTokens | crates/ic10-build/src/lib.rs:619-628 | replacing the last occurrence of the last token replaces exactly the last token |
| Relinking.NextOperationMoves | crates/ic10-sim/src/program.rs:94-96 | from the rank of a line the generated program reaches the generated copy of the operation the source reaches, and none if the source reaches none |
| Relinking.RunMoves | crates/ic10-build/src/lib.rs:351-430 | local agreement of every surviving operation gives lockstep after every number of steps, for every engine and configuration |
| Carrying.BlindRunMoves | crates/ic10-build/src/lib.rs:198-442 | what a build carries over runs in lockstep with a line-blind source |
| Carrying.NotBlindDiverges | crates/ic10-sim/src/simulator.rs:917-931 | what a build carries over of a source that is not line-blind, loads of the line the housing shows included, differs from it after one step of a probing engine |
| Readable.ReadableIsCarried | crates/ic10-build/src/lib.rs:198-442 | every accepted readable build of a source with closed quotes keeps every operation, operand and destination, up to moving lines |
| Readable.ReadMoves | crates/ic10-sim/src/simulator.rs:2654-2776 | registers, pins, devices behind registers, ports, logic names and modes read the same when aliases end the same and numbers move with their lines |
| Readable.ReadableRunsAlike | crates/ic10-build/src/lib.rs:198-442 | the build, read back, runs in lockstep with a line-blind source from translated configurations, over every run |
| Readable.ThinnedNames | crates/ic10-core/src/lib.rs:445-556 | a readable build declares the names of its source, of the same kinds of values |
| Readable.ReadableNeedsLineBlind | crates/ic10-build/src/lib.rs:198-442 | a source that is not line-blind is told apart from its readable build in one step |
| Readable.ReadableIsIdempotent | crates/ic10-build/src/lib.rs:198-442 | building a readable build again removes nothing, adjusts no branch and gives the same code |
| Readable.KeptExactly | crates/ic10-build/src/lib.rs:206-230 | with closed quotes a line is kept exactly if it parses to something |
| NameTransfer.BindingIsSymbol | crates/ic10-core/src/lib.rs:608-627 | without duplicates the machine's tables and the symbol table agree on every alias and define |
| NameTransfer.DefineResolves | crates/ic10-build/src/lib.rs:238-244 | what the compiler substitutes for a define is what the machine resolves it to |
| NameTransfer.ResolveTransfers | crates/ic10-sim/src/program.rs:112-136 | every number but a removable label resolves in the compact program to what it did in the source, through alias and define chains, up to moving lines |
| NameTransfer.ReadTransfers | crates/ic10-sim/src/simulator.rs:2654-2776 | every operand that reads plainly is the same register, pin, device, logic name, mode or number in the compact program, whatever its role |
| CompactText.SubstitutedLine | crates/ic10-build/src/lib.rs:264-294 | substitution drops exactly the define lines and rewrites the operands of the others, text and fields in step |
| CompactText.MissingIsDropped | crates/ic10-build/src/lib.rs:295-322 | only blank lines, defines and removable labels disappear |
| CompactText.SurvivorIsNotDropped | crates/ic10-build/src/lib.rs:295-322 | whatever survives is none of these, and is its source line substituted |
| CompactRuns.RelabelledAgrees | crates/ic10-build/src/lib.rs:324-348 | turning a removable label into a number changes exactly the last operand of its branch |
| CompactRuns.CompactIsCarried | crates/ic10-build/src/lib.rs:232-442 | every accepted compact build of a lawful, transparent source keeps every operation, the meaning of every operand and every destination |
| CompactRuns.CompactRunsAlike | crates/ic10-build/src/lib.rs:232-442 | inlining, shortening, label deletion and relinking together run in lockstep with a lawful, transparent, line-blind source |
| CompactRuns.CompactNeedsLineBlind | crates/ic10-build/src/lib.rs:232-442 | a lawful, transparent source that is not line-blind is told apart from its compact build in one step |
| CompactRuns.NoDeletedNameSurvives | crates/ic10-build/src/lib.rs:232-349 | no generated instruction mentions an inlined define, a renamed alias or a removed label |
| CompactRuns.SurvivingLabelIsNeeded | crates/ic10-build/src/lib.rs:297-315 | a label survives a compact build only if an instruction other than an absolute branch mentions it |
| Build.SubstituteNames | crates/ic10-build/src/lib.rs:264-295 | the loop over the output drops and rewrites as the substitution stage does |
| Build.RetainLines | crates/ic10-build/src/lib.rs:316-322 | the retain step keeps the lines that are not removed |
| Build.ReplaceLabels | crates/ic10-build/src/lib.rs:323-349 | the in-place loop relabels every line or stops at the first label without a destination, and collects the relabelled lines |
| Build.Compile | crates/ic10-build/src/lib.rs:155-456 | the whole compiler with its errors, line limit and source map computes the build result |
| Preservation.BuildIsMapped | crates/ic10-build/src/lib.rs:432-456 | an accepted build respects the line limit, and its source map lists the lines that have code and are not compiled away |
| Preservation.BuildIsCarried | crates/ic10-build/src/lib.rs:155-456 | an accepted build carries its source over along the surviving lines |
| Preservation.BuildPreservesRuns | crates/ic10-build/src/lib.rs:155-456 | accepted readable and compact builds of portable sources run in lockstep with them: every engine, configuration and number of steps |
| Preservation.BuildRunsExactly | crates/ic10-build/src/lib.rs:155-456 | no step of any probing engine, from any configuration, tells an accepted build from its source if and only if the source is portable |
| Preservation.ReadableBuildAgain | crates/ic10-build/src/lib.rs:155-456 | unless the language's own validation rejects it, a readable output compiles again to the same code, the identity source map and zero counters; names and cycles give no new error |
| Preservation.ExactKeepsProgram | crates/ic10-build/src/lib.rs:479-484 | stripping indentation leaves the same program, but for a blank last line |
| Preservation.ExactBuildRunsAlike | crates/ic10-build/src/lib.rs:458-484 | every unoptimized build runs exactly like its source |
| Preservation.StrippedStarts | crates/ic10-build/src/lib.rs:479-484 | no line of the stripped source starts with a space or a tab |
| Acceptance.AdjustsExactly | crates/ic10-build/src/lib.rs:355-430 | adjusting stops at the first branch whose literal target is out of range or has no line left at or after it, or that has no literal while lines are removed, and says which; otherwise the two counts are those of the lines it changed |
| Acceptance.CompactOutcome | crates/ic10-build/src/lib.rs:318-430 | a compact build fails exactly when a removed label or a branch target has no line left, or a target is unsafe, and names such a line with the reason |
| Acceptance.BuildOutcome | crates/ic10-build/src/lib.rs:155-456 | the whole verdict: the wrong game version, then an invalid name or an endless chain of values or another validation error, then a branch that cannot be completed, then too many lines, each with its code and line; everything else is accepted |
| Acceptance.ExactOutcome | crates/ic10-build/src/lib.rs:458-550 | the unoptimized level checks version, validation and line count only, and reports the identity map and zero counters |
| Acceptance.BuildReport | crates/ic10-build/src/lib.rs:522-550 | an accepted build's source map numbers the generated lines from one and gives each its source line, and the saved lines are the difference of the line counts |
| Acceptance.ReadableCounts | crates/ic10-build/src/lib.rs:412-430 | the reported counts are the numbers of relative and of absolute branches that the readable build changed |
| Necessity.UntranslatedBranchGoesAstray | crates/ic10-core/src/lib.rs:629-634 | an accepted build with a literal `bdse` target whose source is not line-blind |
| Necessity.LineNumberMoves | crates/ic10-sim/src/simulator.rs:919-921 | `# c`, `l r0 db LineNumber`: an accepted build whose source is not line-blind; the first step of the source is shown line 1, that of the build line 0 |
| NameTransfer.FollowsAfter | crates/ic10-sim/src/simulator.rs:2693-2719 | a name inside an operand, which no replacement touches, ends in the compact program where it ended, or at itself if it was a private alias or a define, or where a private alias ended whose short name it happens to be |
| Transparency.ReadDiffers | crates/ic10-sim/src/simulator.rs:2654-2776 | an operand that does not read plainly, in any role, is another operand in every compact program, names inside `d0:1` and registers behind a `d` included |
| Transparency.MisreadDiverges | crates/ic10-build/src/lib.rs:264-294 | every compact build of a lawful source with such an operand differs from it in one step |
| Transparency.MisreadTargetDiverges | crates/ic10-build/src/lib.rs:324-430 | every compact build that turns a branch target from a register into a number or label, or back, by inlining a define or removing a label, differs in one step, absolute or relative |
| Transparency.OpaqueDiverges | crates/ic10-build/src/lib.rs:232-442 | so every compact build of a lawful source that is not transparent does |
| Necessity.ReservedDefineIsMisread | crates/ic10-core/src/lib.rs:445-556 | `define r0 5`, `move r1 r0` is accepted, lawful and line-blind, and its compact build differs in one step |
| Duplicates.DuplicateLabelDiverges | crates/ic10-sim/src/program.rs:53-55 | `x:`, `yield`, `x:`, `j x` is accepted, and its compact build jumps to another line |
| Necessity.LawfulLabelExists | crates/ic10-build/src/lib.rs:297-315 | the conditions on compact sources are met together by a program with a removable label |
| Timeline.DropThroughKeepsWindow | crates/ic10-dap/src/main.rs:510-527 | dropping through a checkpoint keeps the history window |
| Timeline.EvictionFindsAnAnchor | crates/ic10-dap/src/main.rs:442-464 | count eviction always finds a checkpoint to drop through |
| Recording.TruncatedKeepsWindow | crates/ic10-dap/src/main.rs:403-409 | discarding the future keeps the window |
| Recording.RecordKeepsWindow | crates/ic10-dap/src/main.rs:394-508 | a recording extends the remembered past by one state and keeps the window: contiguous sequences, anchored external records, at most the allowed number of records; it loses only the abandoned future and, over a limit, a prefix |
| Retention.BoundedSpares | crates/ic10-dap/src/main.rs:463-487 | eviction by count keeps every checkpoint that leaves few enough records, and all but at most an interval of the allowed records |
| Retention.StoredSpares | crates/ic10-dap/src/main.rs:403-487 | so does a whole recording, whose only new checkpoint is the one the record needs |
| Retention.EvictedSpares | crates/ic10-dap/src/main.rs:488-508 | eviction by memory gives up nothing while the history fits, nor a checkpoint from which it would, and keeps all others |
| Retention.RecordingIsWeighed | crates/ic10-dap/src/main.rs:453-487 | the running estimate stays the weight of records and checkpoints, with the sources' once it was computed anew |
| Recording.EvictedKeepsWindow | crates/ic10-dap/src/main.rs:489-508 | memory eviction terminates from every state and ends under the cap or with one checkpoint and no record, window kept |
| Recording.Recheckpointed | crates/ic10-dap/src/main.rs:663-677 | replacing the newest checkpoint loses no anchor |
| Replay.ReplayReproduces | crates/ic10-dap/src/main.rs:537-616 | a recorded transition other than an external one replays to exactly the state it reached, over ticks without instructions too, or fails exactly if it was disturbed |
| Replay.RestoreIsExact | crates/ic10-dap/src/main.rs:529-622 | a target from the oldest checkpoint on restores precisely the remembered state, or fails at the first disturbed record after its checkpoint; older ones are refused; nothing else can go wrong |
| Replay.RestorableExactly | crates/ic10-dap/src/main.rs:529-622 | a retained target restores if and only if no record between its checkpoint and it was disturbed |
| Replay.CheckpointedRestores | crates/ic10-dap/src/main.rs:529-536 | a state with a checkpoint of its own always restores, a moved stop included |
| Replay.BreakpointOnNewTickBreaksRestore | crates/ic10-dap/src/main.rs:649-661 | a stop recorded in a state no record reached does not restore |
| Session.FreshWindow | crates/ic10-dap/src/main.rs:363-392 | a fresh history satisfies the window |
| Session.SessionsTravelExactly | crates/ic10-dap/src/main.rs:394-622 | after any interleaving of recording, stops that moved the simulator included, and of travel, successful or not, every retained number restores to the state recorded for it or fails at the first disturbed record |
| Session.OnlyStopsHinder | crates/ic10-dap/src/main.rs:649-661 | in any session the record a restore fails at is a stop, comes directly after a stop, or is the oldest retained |
| Session.PastIsKept | crates/ic10-dap/src/main.rs:403-409 | what is remembered for a number changes only when that number is recorded anew |
| History.TraceHistory.constructor | crates/ic10-dap/src/main.rs:363-392 | the clamped limits and the initial checkpoint form a valid history |
| History.TraceHistory.Record | crates/ic10-dap/src/main.rs:394-508 | the method on the fields keeps the window, the record bound, the memory bound and the memory estimate, and forgets no more than `Retention` allows |
| History.TraceHistory.RecordStop | crates/ic10-dap/src/main.rs:649-661 | a stop is recorded like any event in whatever state the look for the next instruction has left |
| History.TraceHistory.DropThrough | crates/ic10-dap/src/main.rs:510-527 | the two pop loops compute the drop |
| History.TraceHistory.Restore | crates/ic10-dap/src/main.rs:529-622 | the checkpoint search and replay loop put the simulator in the remembered state, fail at the first disturbed record with the cursor where it was, or refuse without touching anything |
| History.TraceHistory.ReplayOne | crates/ic10-dap/src/main.rs:542-616 | replaying one record on the simulator computes the record's replay, with its error cases |
| History.TraceHistory.CheckpointCurrent | crates/ic10-dap/src/main.rs:663-677 | the newest state gets a checkpoint and no other is lost |
| StateDiff.StateDiff | crates/ic10-dap/src/main.rs:3976-4017 | the map-filling loop computes the folded changes or the refused endpoint |
| StateDiff.RetainedIsWindow | crates/ic10-dap/src/main.rs:3976-3990 | the accepted endpoints are exactly the window |
| StateDiff.DiffIsPatch | crates/ic10-dap/src/main.rs:3992-4017 | listed targets have their values in the two states, unlisted targets are equal in both |
| StateDiff.SwappingEndpointsSwapsPairs | crates/ic10-dap/src/main.rs:4010-4017 | swapping the endpoints swaps every pair |
| StateDiff.PreviousWriteIsLast | crates/ic10-dap/src/main.rs:624-641 | the write found is the first to the target in the last record up to the cursor that writes it; no later record does; the location held the reported value before and has kept what the record left |
| Journalling.StepJournals | crates/ic10-dap/src/main.rs:537-616 | what a recorded step adds to the journal, empty ticks before it included, accounts for everything it changed |
| Journalling.RecordsDrainStops | crates/ic10-dap/src/main.rs:394-426 | in any session whose steps journal what they change, a stop lists nothing, and any other record lists exactly what changed since an earlier remembered state with only stops in between |
| Journalling.SessionDiffIsPatch | crates/ic10-dap/src/main.rs:3976-4017 | in any such session without a moved stop, `state_diff` is a correct patch between any two states of the window, and the location `previous_write` reports has kept its value since |
| RelayGate.SubmitAccounts | mods/StationeersBridge.Relay.Core/RelayAuthorityService.cs:83-126 | a submission keeps counters, queue and bounds in agreement |
| RelayGate.QueuedPlayerIsCounted | mods/StationeersBridge.Relay.Core/RelayAuthorityService.cs:180-187 | the dictionary lookup of a dequeue never fails |
| RelayGate.RelayAuthority.Enter | mods/StationeersBridge.Relay.Core/RelayAuthorityService.cs:83-126 | the lock region changes the fields as the submission step does and releases a permit exactly on acceptance |
| RelayGate.RelayAuthority.TrimCompleted | mods/StationeersBridge.Relay.Core/RelayAuthorityService.cs:370-382 | both trim loops evict completed keys oldest first until the bound is met |
| RelayGate.RelayAuthority.TakeNext | mods/StationeersBridge.Relay.Core/RelayAuthorityService.cs:178-188 | the lock region dequeues the oldest request and keeps the counters |
| RelayGate.RelayAuthority.Finish | mods/StationeersBridge.Relay.Core/RelayAuthorityService.cs:356-368 | the lock region publishes the first response only and queues the key for eviction |
| RelayGate.RelayAuthority.Stop | mods/StationeersBridge.Relay.Core/RelayAuthorityService.cs:478-489 | disposal empties queue and counters once and hands over the queued requests |
| RelaySafety.TrimEvictsOldest | mods/StationeersBridge.Relay.Core/RelayAuthorityService.cs:370-382 | trimming evicts a prefix of the completed keys, in order of completion, each only while the cache is over the bound, and stops under the bound or with none left |
| RelaySafety.TrimKeepsCached | mods/StationeersBridge.Relay.Core/RelayAuthorityService.cs:370-375 | no queued, in-flight or abandoned entry is ever evicted |
| RelaySafety.CompleteNeverEvicts | mods/StationeersBridge.Relay.Core/RelayAuthorityService.cs:356-368 | a completion always finds its own entry and its trim evicts nothing |
| RelaySafety.HolderFindsWork | mods/StationeersBridge.Relay.Core/RelayAuthorityService.cs:170-188 | until disposal a worker that took a permit finds a request |
| RelaySafety.StepKeepsInv | mods/StationeersBridge.Relay.Core/RelayAuthorityService.cs:64-509 | every step of every interleaving keeps accounting, permits, the partition of cached keys and the uniqueness of executions |
| RelayRuns.AtMostOnce | mods/StationeersBridge.Relay.Core/RelayAuthorityService.cs:194-247 | in every run the executor is called at most once for each accepted request |
| RelayRuns.AlwaysAccounted | mods/StationeersBridge.Relay.Core/RelayAuthorityService.cs:83-192 | in every run counters, bounds, queue length and semaphore agree |
| RelayRuns.AnsweredOnce | mods/StationeersBridge.Relay.Core/RelayAuthorityService.cs:356-368 | only a worker's response and disposal answer a request, and each is the first to do so |
| RelayRuns.ResponsesAreFinal | mods/StationeersBridge.Relay.Core/RelayAuthorityService.cs:356-360 | a response, once given, never changes in any future |
| RelayRuns.RunAnswersWell | mods/StationeersBridge.Relay.Core/RelayAuthorityService.cs:226-247 | every response names its own request, has a safe code and a bounded payload |
| RelayRuns.RetryGetsOriginal | mods/StationeersBridge.Relay.Core/RelayAuthorityService.cs:89-95 | a retry with the cached fingerprint is given the accepted original, whose response it gets in every future |
| RelayVerdicts.VerdictIs | mods/StationeersBridge.Relay.Core/RelayAuthorityService.cs:83-124 | every verdict exactly: a cached accepted request of the same player, session and key is replayed if and only if the fingerprints agree and conflicts if and only if they do not; a new request meets the global limit, the player's limit, the cache limit or acceptance, in that order |
| RelayVerdicts.SubmissionQueues | mods/StationeersBridge.Relay.Core/RelayAuthorityService.cs:113-122 | an accepted request goes to the end of the queue and into the cache under its own id; any other submission queues nothing |
| RelayVerdicts.FirstComeFirstServed | mods/StationeersBridge.Relay.Core/RelayAuthorityService.cs:164-192 | in every run a worker takes the waiting request that was accepted first, and no other leaves the queue |
| RelayVerdicts.RefusalSays | mods/StationeersBridge.Relay.Core/RelayAuthorityService.cs:249-306 | the code of a refusal tells the truth about the request, the services and the policy, and is retryable exactly for the reasons that can pass |
| RelayVerdicts.AnswerIsOutcome | mods/StationeersBridge.Relay.Core/RelayAuthorityService.cs:194-247 | a request is answered what the executor returned, payload, code and retryability, but for a payload that is too large and a code that is not safe |
| RelayRuns.ReplayNamesRetry | mods/StationeersBridge.Relay.Core/RelayAuthorityService.cs:134-162 | a replayed response is the original but for the retry's names; a cancelled retry gets none of it |
| RelayRuns.ActiveKeysAre | mods/StationeersBridge.Relay.Core/RelayAuthorityService.cs:116-122 | the cached keys without a response are exactly the keys of queued, in-flight and abandoned requests |
| RelayRuns.CacheFullExactly | mods/StationeersBridge.Relay.Core/RelayAuthorityService.cs:109-113 | the cache refuses a request exactly when every slot holds a request without a response |
| RelayRuns.EntriesStay | mods/StationeersBridge.Relay.Core/RelayAuthorityService.cs:89-124 | an entry is never overwritten, and never leaves before its request has a response |
| RelayRuns.ExecutionIsCached | mods/StationeersBridge.Relay.Core/RelayAuthorityService.cs:194-212 | whatever is executed is the request its key is cached for and was not executed before: one call in an entry's lifetime |
| RelayRuns.ExecutesExactlyWhenAllowed | mods/StationeersBridge.Relay.Core/RelayAuthorityService.cs:249-306 | the executor is called exactly for a live, authenticated, unrevoked request that an enabled policy permits |
| RelayRuns.StepsUseUpWork | mods/StationeersBridge.Relay.Core/RelayAuthorityService.cs:164-192 | every step but a submission uses up work, so the service comes to rest |
| RelayRuns.AtRestAllAnswered | mods/StationeersBridge.Relay.Core/RelayAuthorityService.cs:478-497 | at rest, disposed or not, every accepted request has its response |
| Format.FormatDocument | crates/ic10-core/src/formatting.rs:20-77 | the loop with its vector, pop and join computes the formatted text |
| Format.FormatLineReads | crates/ic10-core/src/formatting.rs:34-66 | a formatted line parses to the kind, token texts and comment of the original |
| Format.DocumentIsLaidOut | crates/ic10-core/src/formatting.rs:34-66 | labels stand in the first column, instructions behind exactly the indentation asked for, with single spaces between tokens and before the comment |
| Format.FormattingKeepsProgram | crates/ic10-core/src/formatting.rs:20-77 | parsing the formatted text gives the same number of lines, kinds, token texts and comments |
| Format.FormattingIsIdempotent | crates/ic10-core/src/formatting.rs:20-77 | formatting twice is formatting once, line endings included |
| Flow.ResolveSymbolLoop | crates/ic10-core/src/analysis.rs:508-521 | the loop with its seen set terminates and follows symbol values |
| Flow.BuildEdges | crates/ic10-core/src/analysis.rs:662-729 | the loop fills the edges and finds whether a branch is dynamic |
| Flow.MarkReachable | crates/ic10-core/src/analysis.rs:750-758 | the queue loop terminates and marks exactly the lines a path from line 0 reaches |
| Flow.AnalyzeControlFlow | crates/ic10-core/src/analysis.rs:652-776 | a line is reported exactly when no branch is dynamic, it is not empty and no path reaches it |
| FlowRuns.ReportedRunStrays | crates/ic10-core/src/analysis.rs:652-776 | a run of any engine that executes a reported line means that a surely reached branch leads to one |
| FlowRuns.StrayRuns | crates/ic10-sim/src/simulator.rs:2256-2329 | a surely reached branch that leads to a reported line is taken in a run that executes one |
| FlowRuns.ReportedRunsExactly | crates/ic10-core/src/analysis.rs:652-776 | some run executes a reported line if and only if some surely reached branch leads to one, for every program and language |
| FlowTargets.TargetsAgree | crates/ic10-core/src/analysis.rs:778-800 | the analysis and the machine send a branch to the same line, but for a label on a relative branch, which the machine adds to the branch's own line |
| FlowTargets.PredictableNeverStrays | crates/ic10-core/src/analysis.rs:652-776 | in a program whose branches are known, name no register, and have numbers or, if absolute, labels as targets, no branch leads to a reported line |
| FlowTargets.ReportedNeverRuns | crates/ic10-core/src/analysis.rs:652-776 | no run of such a program, with any engine that halts on `hcf`, ever executes a reported line |
| FlowExact.ReportIsExact | crates/ic10-core/src/analysis.rs:652-776 | in such a program without `jal` and branches without target, an operation is reported if and only if no branch is dynamic and the machine surely never reaches it |
| FlowExact.ReportedExactlyDead | crates/ic10-core/src/analysis.rs:652-776 | that is, if and only if no run of a steered engine executes it |
| FlowExact.RegisterSilences | crates/ic10-core/src/analysis.rs:662-729 | a branch to a register keeps the analysis from reporting anything |
| FlowExact.FollowableSpeaks | crates/ic10-core/src/analysis.rs:662-729 | in a program whose targets the analysis can follow no branch is dynamic |
| FlowStrays.RelativeLabelStrays | crates/ic10-core/src/analysis.rs:778-800 | with a label on a relative branch a reported line is executed |
| FlowStrays.UnknownBranchStrays | crates/ic10-core/src/lib.rs:629-634 | behind a `bdse` a reported line is executed |
| Evaluator.FindSplit | crates/ic10-runner/src/evaluator.rs:454-489 | the scan with its depth and quote variables finds the last split of a level |
| Evaluator.ValidateDelimiters | crates/ic10-runner/src/evaluator.rs:507-545 | the stack loop accepts exactly the texts whose brackets and quotes match |
| Expressions.ScanOver | crates/ic10-runner/src/evaluator.rs:454-489 | text that passes the scan neither hides nor adds a later split |
| Expressions.DeeperIsQuiet | crates/ic10-runner/src/evaluator.rs:463-470 | one bracket deeper nothing splits |
| ExpressionRuns.SplitsAtRoot | crates/ic10-runner/src/evaluator.rs:64-71 | a printed tree splits at its root operator: the loosest, and the last of equals |
| ExpressionRuns.TrimOuterPrinted | crates/ic10-runner/src/evaluator.rs:547-571 | outer parentheses of an operand are stripped, and only those |
| ExpressionRuns.EvaluatorReadsPrinter | crates/ic10-runner/src/evaluator.rs:44-115 | evaluating a tree printed with minimal parentheses gives the value that the tree has by its own denotation, short-circuits, errors and calls of unknown functions included |
| ExpressionRuns.EvaluatorReadsNested | crates/ic10-runner/src/evaluator.rs:547-571 | any number of parentheses around the whole makes no difference |
| ExpressionRuns.UnbalancedIsRefused | crates/ic10-runner/src/evaluator.rs:507-545 | text without quotes whose opening and closing parentheses differ in number is not evaluated |
| Arithmetic.EvaluatorCalculates | crates/ic10-runner/src/evaluator.rs:115-147 | over integers the text of a tree of sums and products evaluates to its integer, and that of comparisons joined by conjunction, disjunction and negation to its truth value, an error on the right going unnoticed exactly where the left side decides |
| Arithmetic.OperatorsCompare | crates/ic10-runner/src/evaluator.rs:115-147 | the six comparisons, as they are written, compare the operands' integers |
| Arithmetic.OperatorsGroup | crates/ic10-runner/src/evaluator.rs:64-71 | in text, products bind tighter than sums, differences group to the left, and parentheses override both |
| ExpressionRuns.SignStopsAtParens | crates/ic10-runner/src/evaluator.rs:86-100 | a sign before parentheses applies to the atom of that text, whatever the parentheses hold |
| Monitor.TickAdvances | crates/ic10-runner/src/runner.rs:748-769 | a tick's scheduler steps end with the tick or the operation budget unless something breaks, and move the tick by at most one |
| Monitor.TickIs | crates/ic10-runner/src/runner.rs:748-769 | a tick is so many scheduler steps, the first after which it is past, over budget or broken, and counts those that executed an operation |
| Monitor.EvaluateAssertions | crates/ic10-runner/src/runner.rs:961-1013 | the loop updates every flag and reports exactly the assertions judged failed at this observation |
| Monitor.RunCase | crates/ic10-runner/src/runner.rs:684-846 | the main loop terminates; it observes exactly the run of the world, tick by tick and within both limits; it reports exactly the assertion failures of that trace and its last state, which is the last one observed or the one the failing scheduler step left, a stimulus failure exactly if some arrival had one, the operation limit exactly if the operations are spent and the program is not finished, and a runtime error, or its absence, exactly if the run was cut short, or not; it stops only for an error, an early failure, a limit or the end of the program |
| Monitor.FailedMeans | crates/ic10-runner/src/runner.rs:973-1011 | a failure is reported exactly when some observation violates, errs, or misses the deadline |
| Monitor.VerdictIsMeaning | crates/ic10-runner/src/runner.rs:800-836 | an assertion goes unreported exactly when the trace meets it: always at every tick, eventually in time, atTick at that tick, plain at the end |
| Monitor.PassMeans | crates/ic10-runner/src/runner.rs:684-846 | a report is empty exactly if every stimulus was applied, the trace meets every assertion, the run was cut short exactly if an error was expected, and the operations sufficed or the program finished |
| Monitor.PlainIsDecided | crates/ic10-runner/src/runner.rs:994-1011 | in every run that reached its last state, a plain assertion is reported or not by that state alone, unless the runner's lower tick limit was reached |
| Monitor.SkippedPlainExists | crates/ic10-runner/src/runner.rs:816-836 | a run under a lower tick limit in which a plain assertion fails throughout and rightly goes unreported |
| Positions.FindOffset | crates/ic10-lsp/src/main.rs:2322-2346 | the two loops compute the byte offset of a UTF-16 position |
| Positions.OffsetRoundTrip | crates/ic10-lsp/src/main.rs:2322-2355 | offset to position to offset is the identity on every character boundary, surrogate pairs included |
| Positions.OffsetIsNearest | crates/ic10-lsp/src/main.rs:2322-2346 | every position has an offset: the end of the source past the last line, else the last character boundary of the line at or before the column |
| Positions.PositionsDiffer | crates/ic10-lsp/src/main.rs:2348-2355 | different boundaries have different positions |
| Rename.RenameEditsApply | crates/ic10-lsp/src/main.rs:1273-1280 | applying the edits of a line renames its occurrences and nothing else |
| Rename.RenameChangesKind | crates/ic10-core/src/analysis.rs:146-180 | a renamed line parses to the same kind with the name replaced in label or operands, comment untouched |
| Rename.RenameAndBack | crates/ic10-lsp/src/main.rs:1246-1281 | renaming to a name the line does not contain, and back, restores the text exactly |
| Rename.RenamedTable | crates/ic10-core/src/lib.rs:445-556 | the symbol table changes by the name only |
| DocumentRename.DocumentIsRows | crates/ic10-core/src/lib.rs:246-289 | the parsed lines of a document are the text between its newlines, less a carriage return |
| DocumentRename.SpansSurvive | crates/ic10-lsp/src/main.rs:2322-2362 | a span turned into a UTF-16 range and found again by the client is the same span |
| DocumentRename.EditsFromApply | crates/ic10-lsp/src/main.rs:1273-1280 | the edits of all rows, applied together to the source, rename row by row and leave every line ending as it was |
| DocumentRename.RenameRenamesRows | crates/ic10-lsp/src/main.rs:1246-1281 | an accepted request, its ranges sent and applied, gives the source with the symbol's occurrences renamed |
| DocumentRename.RefusedExactly | crates/ic10-lsp/src/main.rs:1246-1271 | a request is refused exactly for a new name that is no identifier, or that some line declares already; an undeclared symbol gets no edits |
| DocumentRename.RenamedDocumentReads | crates/ic10-core/src/analysis.rs:146-180 | parsing the renamed document gives the program with the name replaced |
| DocumentRename.RenamedDocumentTable | crates/ic10-core/src/lib.rs:445-556 | its symbol table has the symbol under the new name on the same line, every other symbol where it was, and no longer the former name |
| DocumentRename.BackIsRefused | crates/ic10-lsp/src/main.rs:1259-1271 | with the label declared again further down, renaming back is refused as already declared |
| DocumentRename.RenameThereAndBack | crates/ic10-lsp/src/main.rs:1246-1281 | renaming to an absent name succeeds, and renaming back restores the source exactly if and only if the symbol is no label declared again |
| Distance.EditDistance | crates/ic10-lsp/src/main.rs:1524-1538 | the two-row loop computes the recursive Levenshtein distance |
| Distance.NoScriptIsCheaper | crates/ic10-lsp/src/main.rs:1524-1538 | no script of insertions, deletions and replacements between two texts costs less than their distance |
| Distance.SomeScriptCosts | crates/ic10-lsp/src/main.rs:1524-1538 | some script costs exactly the distance |
| Distance.DistanceIsSymmetric | crates/ic10-lsp/src/main.rs:1524-1538 | the distance is symmetric |
| Distance.TriangleInequality | crates/ic10-lsp/src/main.rs:1524-1538 | the distance obeys the triangle inequality |
| Distance.ZeroIsEqual | crates/ic10-lsp/src/main.rs:1524-1538 | the distance is zero exactly for equal texts |
| Symbols.LessIsLexicographic | crates/ic10-lsp/src/main.rs:1510-1522 | the order that decides between instructions as near is that of the alphabet: the smaller character at the first difference, or the shorter text |
| Distance.ClosestInstruction | crates/ic10-lsp/src/main.rs:1510-1522 | a suggestion is a nearest instruction, earliest in the alphabet among equals, and there is one exactly when one lies within distance 2 |

## Left out

- Validation passes other than invalid names and cycles: a build takes their verdict as a given predicate on the source.
- Literals with an exponent, such as `1e2`, as branch targets: `Literals.ParseInteger` reads integers with a sign, the hexadecimal and binary prefixes, and all-zero fractions. `NaN`, infinities and fractions are not integers there either.
- Wide branch targets: the machine's and the compiler's integers are unbounded; the original saturates at 64 bits, out of range of every program.
- Byte counts, the source hash, and the counts of substituted names in the build report.
- What instructions compute, sleeping and yielding: the machine's engine is arbitrary. The return address reaches an instruction only if an operand names it or may name it indirectly, the line in the housing's `LineNumber` only a load that may name the field. Another chip, or a device behaviour, that reads this housing's `LineNumber` sees the moved line whatever the program does.
- Readable.ReadableRunsAlike: requires quotes closed on every line, because trimming the end of an open quote changes the token.
- CompactRuns.CompactRunsAlike: requires the conditions of `NameTransfer.Lawful`, `NameTransfer.Transparent` and `CompactText.QuotedWordsFree`; each is stated on the source alone. Transparency is shown necessary for lawful sources; of lawfulness and `QuotedWordsFree` only the absence of duplicate labels is.
- The language's lists of logic names are a given set, and its constants and macros are what the engine makes of a word; an indirect register that does not exist falls back on the number of its name, as in the original.
- State hashes are a given function, taken to tell the state of a stop from a different state before it. A debugger that records on after a failed restore, without travelling first, is outside `Session.Possible`.
- Stepping a Lua thread records a scheduled action at that thread, whichever instruction the scheduler ran (crates/ic10-dap/src/main.rs:4105-4135), and a failing test tick changes the simulator before its stop is recorded (crates/ic10-dap/src/main.rs:908-918 and 1170-1180); the first is no transition of the model, the second is a stop that moved.
- StateDiff.DiffIsPatch: assumes a complete journal, as does `StateDiff.PreviousWriteIsLast`; `Journalling.SessionDiffIsPatch` derives it for the locations that the engine's steps journal. The simulator stores the housing's `LineNumber` and `Error` fields without a journal entry (crates/ic10-sim/src/simulator.rs:919-921 and 947-949), so changes of these two stay unlisted. With a moved stop only `Journalling.RecordsDrainStops` holds.
- A scheduler error found while looking for the next instruction, which the simulator keeps for its next step.
- `goto`, hot reload and failed world ticks in the debugger change state outside the recorded history.
- Event flags, read effects, source identifiers and the debug line of a trace record.
- The relay's validation before the lock, its audit records and message texts; payload sizes and fingerprints are given functions, request expiry and cancellation are inputs of the deciding step.
- Faults of `SemaphoreSlim` after it is disposed: a worker waiting then counts as ended.
- Format.FormattingKeepsProgram: requires closed quotes and carriage returns only before newlines, as does `Format.FormattingIsIdempotent`; a stray return at the end of a comment would be read as part of a line ending.
- FlowRuns.ReportedRunsExactly: quantifies over every engine in which `hcf` halts and target words have fixed numbers; what a particular program leaves in its registers, the return address included, is not followed. `FlowTargets.ReportedNeverRuns` gives a condition on the program alone.
- The option that turns unreachable-code reports off, and the tight-loop, constant-branch, clobbering and stack diagnostics of the control-flow analysis.
- Numbers of the evaluator are opaque, with given arithmetic; `Arithmetic` takes them to be integers, without division and remainder. The atoms' own syntax is a given function.
- ExpressionRuns.EvaluatorReadsPrinter: signs stand before atoms and calls only, and an atom's quoted text holds no unbalanced round bracket, because outer parentheses are counted without looking at quotes.
- The monitor's wall-clock limit, snapshot section and expected-error messages.
- DocumentRename.RenameThereAndBack: requires the new name to be absent from the code; a name that is used but not declared would be captured, and the server does not look for it. Which symbol the cursor is on is a given name, and the client applies all edits together, in order.
- The completion, hover, code-action and transport layers.
