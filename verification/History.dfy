/**
 The debugger's `TraceHistory` object. Its fields are those of a timeline; the
 ghost `past` remembers the state every sequence number was recorded in.
 */
module History {
  import opened Prelude
  import opened Simulation
  import opened Timeline
  import Spec = Timeline
  import opened Recording
  import opened Retention
  import opened Replay

  class TraceHistory<!S(!new)> {
    const engine: Engine<S>
    const limits: Limits<S>
    var records: seq<TraceRecord>
    var checkpoints: seq<Checkpoint<S>>
    var cursor: nat
    var nextSequence: nat
    var dropped: nat
    var memoryEstimate: nat
    ghost var past: seq<S>

    function View(): Timeline<S> reads this {
      Timeline(records, checkpoints, cursor, nextSequence, dropped, memoryEstimate)
    }

    ghost predicate Valid() reads this {
      Lawful(engine) && Window(View(), past, engine, limits) && Weighed(View(), limits)
    }

    constructor (simulator: Simulator<S>, maxEvents: nat, checkpointInterval: nat, memoryMib: nat,
                 sourceBytes: nat, recordBytes: TraceRecord -> nat, snapshotBytes: S -> nat)
      requires Lawful(simulator.engine)
      ensures Valid() && past == [simulator.state] && engine == simulator.engine
      ensures View() == Timeline([], [Checkpoint(0, simulator.state, snapshotBytes(simulator.state))],
                                 0, 1, 0, Saturating(snapshotBytes(simulator.state)))
      ensures limits.maxEvents >= maxEvents && limits.interval <= limits.maxEvents
    {
      engine := simulator.engine;
      var events := if maxEvents < 2 then 2 else maxEvents;
      var interval := Min(if checkpointInterval < 1 then 1 else checkpointInterval, events);
      limits := Limits(events, Saturating((if memoryMib < 1 then 1 else memoryMib) * 1024 * 1024), interval,
                       sourceBytes, recordBytes, snapshotBytes);
      records, cursor, nextSequence, dropped := [], 0, 1, 0;
      checkpoints := [Checkpoint(0, simulator.state, snapshotBytes(simulator.state))];
      memoryEstimate := Saturating(snapshotBytes(simulator.state));
      past := [simulator.state];
      new;
      FreshIsWeighed(checkpoints[0], limits);
    }

    /** The record `Record` would store for the simulator's present state. */
    function Candidate(state: S, cpu: nat, line: nat, action: Action, effects: seq<Write>,
                       error: Option<string>): TraceRecord
      requires nextSequence > 0
      reads this
    {
      TraceRecord(Position(View()) + 1, engine.tick(state), cpu, line, action, effects, error, engine.hash(state))
    }

    method Record(simulator: Simulator<S>, cpu: nat, line: nat, action: Action, effects: seq<Write>,
                  error: Option<string>)
      requires Valid() && simulator.engine == engine
      requires Happened(engine, past[Position(View())],
                        Candidate(simulator.state, cpu, line, action, effects, error), simulator.state)
      modifies this
      ensures Valid()
      ensures past == old(past)[..old(Position(View())) + 1] + [simulator.state]
      ensures Continues(old(View()), old(Candidate(simulator.state, cpu, line, action, effects, error)), View())
      ensures |records| <= limits.maxEvents
      ensures memoryEstimate <= limits.maxMemory || Irreducible(View())
      ensures Spares(old(View()), old(Candidate(simulator.state, cpu, line, action, effects, error)),
        Checkpoint(cursor, simulator.state, limits.snapshotBytes(simulator.state)), View(), limits)
    {
      var record := Candidate(simulator.state, cpu, line, action, effects, error);
      Keep(record, Checkpoint(record.sequence, simulator.state, limits.snapshotBytes(simulator.state)));
    }

    method Keep(record: TraceRecord, here: Checkpoint<S>)
      requires Valid() && record.sequence == here.sequence == Position(View()) + 1
      requires Happened(engine, past[Position(View())], record, here.snapshot)
      modifies this
      ensures Valid() && past == old(past)[..old(Position(View())) + 1] + [here.snapshot]
      ensures Continues(old(View()), record, View()) && cursor == here.sequence
      ensures |records| <= limits.maxEvents && (memoryEstimate <= limits.maxMemory || Irreducible(View()))
      ensures Spares(old(View()), record, here, View(), limits)
    {
      ghost var t := View();
      ghost var past' := past[..Position(t) + 1] + [here.snapshot];
      hide Window, Happened, Continues, Contiguous, Stored, Irreducible, Lawful, Truncated, Evicted, Weighed,
          Spares, Anchored, Remembers;
      ghost var u := RecordingSpares(t, past, engine, limits, record, here, past');
      Store(record, here);
      EvictByMemory(here);
      past := past';
      assert Window(View(), past, engine, limits);
    }

    method Store(record: TraceRecord, here: Checkpoint<S>)
      requires limits.Sound() && Truncated(View(), limits).checkpoints != []
      modifies this
      ensures View() == Stored(old(View()), record, here, limits) && past == old(past)
    {
      hide Truncated, Appended, Bounded;
      TruncateFuture();
      Append(record, here);
      BoundRecords(here);
    }

    method TruncateFuture()
      modifies this
      ensures View() == Truncated(old(View()), limits) && past == old(past)
    {
      if cursor + 1 < nextSequence {
        records := RetainRecords(records, cursor);
        checkpoints := RetainCheckpoints(checkpoints, cursor);
        nextSequence := cursor + 1;
        RecomputeMemoryEstimate();
      }
    }

    method Append(record: TraceRecord, here: Checkpoint<S>)
      requires limits.Sound()
      modifies this
      ensures checkpoints == old(checkpoints) || checkpoints == old(checkpoints) + [here]
      ensures View() == Appended(old(View()), record, here, limits) && past == old(past)
    {
      var sequence := nextSequence;
      nextSequence := nextSequence + 1;
      cursor := sequence;
      memoryEstimate := Saturating(memoryEstimate + limits.recordBytes(record));
      records := records + [record];
      if sequence % limits.interval == 0 || record.action == External {
        checkpoints := checkpoints + [here];
        memoryEstimate := Saturating(memoryEstimate + here.bytes);
      }
    }

    method BoundRecords(here: Checkpoint<S>)
      requires limits.Sound() && checkpoints != []
      modifies this
      ensures View() == Bounded(old(View()), here, limits) && past == old(past)
    {
      hide Recomputed, Spec.DropThrough;
      if |records| > limits.maxEvents {
        var first := records[|records| - limits.maxEvents].sequence;
        var baseline := Baseline(checkpoints, first, checkpoints[0].sequence);
        if baseline.None? {
          checkpoints := checkpoints + [here];
          baseline := Some(here.sequence);
        }
        DropThrough(baseline.value);
        RecomputeMemoryEstimate();
      }
    }

    method EvictByMemory(here: Checkpoint<S>)
      requires Contiguous(View()) && here.sequence == cursor == nextSequence - 1
      modifies this
      ensures View() == Evicted(old(View()), here, limits) && past == old(past)
    {
      while memoryEstimate > limits.maxMemory
        invariant Contiguous(View()) && here.sequence == cursor == nextSequence - 1 && past == old(past)
        invariant Evicted(View(), here, limits) == Evicted(old(View()), here, limits)
        decreases |records|, if |checkpoints| == 1 then 1 else 0
      {
        if |checkpoints| == 1 && records == [] { break; }
        EvictOnceShrinks(View(), here, limits);
        EvictOldest(here);
      }
    }

    method EvictOldest(here: Checkpoint<S>)
      requires checkpoints != []
      modifies this
      ensures View() == EvictOnce(old(View()), here, limits) && past == old(past)
    {
      if |checkpoints| == 1 {
        checkpoints := checkpoints + [here];
      } else {
        DropThrough(checkpoints[1].sequence);
      }
      RecomputeMemoryEstimate();
    }

    method DropThrough(baseline: nat)
      modifies this`records, this`dropped, this`checkpoints
      ensures View() == Spec.DropThrough(old(View()), baseline)
    {
      PopRecords(baseline);
      PopCheckpoints(baseline);
    }

    method PopRecords(baseline: nat)
      modifies this`records, this`dropped
      ensures records == DropRecords(old(records), baseline)
      ensures dropped == old(dropped) + (|old(records)| - |records|)
    {
      while records != [] && records[0].sequence <= baseline
        invariant DropRecords(records, baseline) == DropRecords(old(records), baseline)
        invariant dropped + |records| == old(dropped) + |old(records)|
        decreases |records|
      {
        records := records[1..];
        dropped := dropped + 1;
      }
    }

    method PopCheckpoints(baseline: nat)
      modifies this`checkpoints
      ensures checkpoints == DropCheckpoints(old(checkpoints), baseline)
    {
      while |checkpoints| > 1 && checkpoints[1].sequence <= baseline
        invariant DropCheckpoints(checkpoints, baseline) == DropCheckpoints(old(checkpoints), baseline)
        decreases |checkpoints|
      {
        checkpoints := checkpoints[1..];
      }
    }

    method RecomputeMemoryEstimate()
      modifies this`memoryEstimate
      ensures View() == Recomputed(old(View()), limits)
    {
      var i, bytes := 0, 0;
      while i < |records|
        invariant 0 <= i <= |records| && bytes + RecordsBytes(records[i..], limits) == RecordsBytes(records, limits)
      {
        bytes := bytes + limits.recordBytes(records[i]);
        i := i + 1;
      }
      i := 0;
      while i < |checkpoints|
        invariant 0 <= i <= |checkpoints|
        invariant bytes + CheckpointsBytes(checkpoints[i..]) == RecordsBytes(records, limits) +
            CheckpointsBytes(checkpoints)
      {
        bytes := bytes + checkpoints[i].bytes;
        i := i + 1;
      }
      memoryEstimate := Saturating(Saturating(bytes) + limits.sourceBytes);
    }

    /** A stop is recorded like any event, in whatever state the search for the next instruction left the simulator. */
    method RecordStop(simulator: Simulator<S>, cpu: nat, line: nat)
      requires Valid() && simulator.engine == engine
      requires var before := past[Position(View())];
        engine.hash(simulator.state) == engine.hash(before) ==> simulator.state == before
      modifies this
      ensures Valid() && past == old(past)[..old(Position(View())) + 1] + [simulator.state]
      ensures Continues(old(View()), old(Candidate(simulator.state, cpu, line, Stop, [], None)), View())
    {
      assert Did(engine, past[Position(View())], [], Candidate(simulator.state, cpu, line, Stop, [], None),
          simulator.state);
      Record(simulator, cpu, line, Stop, [], None);
    }

    /** Replace or add the checkpoint at the cursor; only called at the newest record. */
    method CheckpointCurrent(simulator: Simulator<S>)
      requires Valid() && cursor == nextSequence - 1 && simulator.state == past[cursor]
      modifies this`checkpoints, this`memoryEstimate
      ensures Valid() && HasCheckpoint(View(), cursor)
      ensures forall q :: old(HasCheckpoint(View(), q)) ==> HasCheckpoint(View(), q)
    {
      ghost var t := View();
      if checkpoints[|checkpoints| - 1].sequence == cursor {
        checkpoints := checkpoints[..|checkpoints| - 1];
      }
      checkpoints := checkpoints + [Checkpoint(cursor, simulator.state, limits.snapshotBytes(simulator.state))];
      RecomputeMemoryEstimate();
      Recheckpointed(t, View(), past, engine, limits);
    }

    /** The record at which restoring `target` fails. */
    ghost function Hindrance(target: nat): Option<nat>
      requires Valid()
      reads this
    {
      Obstacle(View(), past, engine, target)
    }

    method Restore(simulator: Simulator<S>, target: nat) returns (r: Result<(), ReplayError>)
      requires Valid() && simulator.engine == engine
      modifies this`cursor, simulator
      ensures Valid() && past == old(past)
      ensures target < dropped ==>
          r == Err(NotRetained) && simulator.state == old(simulator.state) && cursor == old(cursor)
      ensures target >= dropped ==>
        match old(Hindrance(target))
        case None => (r == Ok(()) && cursor == target && simulator.pending == [] &&
          simulator.state == past[Position(View())])
        case Some(d) => (d < |records| && r == Err(Divergence(records[d])) && cursor == old(cursor))
    {
      assert |past| == nextSequence && Remembers(View(), past, engine);
      hide Lawful, Window, Restored, Obstacle, Remembers, Contiguous, Happened;
      RestoreIsExact(View(), past, engine, limits, target);
      CursorMoves(View(), past, engine, limits, target);
      r := ReplayTo(simulator, target);
      if r.Ok? { cursor := target; }
    }

    /** The checkpoint search and replay loop of `restore`. */
    method ReplayTo(simulator: Simulator<S>, target: nat) returns (r: Result<(), ReplayError>)
      requires Lawful(engine) && simulator.engine == engine
      modifies simulator
      ensures match Restored(View(), engine, target)
        case Err(error) => r == Err(error) && (error == NotRetained ==> simulator.state == old(simulator.state))
        case Ok(state) => r == Ok(()) && simulator.state == state && simulator.pending == []
    {
      var found := FindCheckpoint(target);
      if found.None? { return Err(NotRetained); }
      simulator.Restore(found.value.snapshot);
      var i := 0;
      while i < |records|
        invariant 0 <= i <= |records| && simulator.pending == []
        invariant ReplayRecords(engine, simulator.state, records[i..], found.value.sequence, target)
               == ReplayRecords(engine, found.value.snapshot, records, found.value.sequence, target)
      {
        var record := records[i];
        assert records[i..][0] == record && records[i..][1..] == records[i + 1..];
        if found.value.sequence < record.sequence <= target {
          var step := ReplayOne(simulator, record);
          if step.Err? { return step; }
        }
        i := i + 1;
      }
      r := Ok(());
    }

    method FindCheckpoint(target: nat) returns (found: Option<Checkpoint<S>>)
      ensures found == LatestCheckpoint(checkpoints, target)
    {
      var i := |checkpoints|;
      assert checkpoints[..i] == checkpoints;
      while i > 0
        invariant 0 <= i <= |checkpoints|
        invariant LatestCheckpoint(checkpoints[..i], target) == LatestCheckpoint(checkpoints, target)
      {
        if checkpoints[i - 1].sequence <= target { return Some(checkpoints[i - 1]); }
        i := i - 1;
        assert checkpoints[..i + 1][..i] == checkpoints[..i];
      }
      found := None;
    }

    /** Replays one record on the live simulator. */
    method ReplayOne(simulator: Simulator<S>, record: TraceRecord) returns (r: Result<(), ReplayError>)
      requires Lawful(engine) && simulator.engine == engine && simulator.pending == []
      modifies simulator
      ensures match ReplayRecord(engine, old(simulator.state), record)
        case Err(error) => r == Err(error) && error != NotRetained
        case Ok(state) => r == Ok(()) && simulator.state == state && simulator.pending == []
    {
      var error: Option<string> := None;
      match record.action {
        case Scheduled =>
          while engine.tick(simulator.state) < record.tick
            invariant simulator.engine == engine
            invariant CatchUp(engine, simulator.state, simulator.pending, record)
                   == CatchUp(engine, old(simulator.state), [], record)
            decreases record.tick - engine.tick(simulator.state)
          {
            var early := simulator.NextScheduledLocation();
            if early.Some? { return Err(ExpectedTickAnchor(record.sequence)); }
          }
          var location := simulator.NextScheduledLocation();
          if location.None? { return Err(NoInstruction(record.sequence)); }
          if location.value != (record.cpu, record.line) { return Err(LocationDiverged(record.sequence)); }
          error := simulator.Run(engine.scheduled(simulator.state));
        case Instruction(thread) => error := simulator.Run(engine.instruction(simulator.state, thread));
        case WorldTick => error := simulator.Run(engine.worldTick(simulator.state));
        case External => return Err(MissingCheckpoint(record.sequence));
        case Stop =>
      }
      if record.action != Stop && error != record.error { return Err(OutcomeDiverged(record.sequence)); }
      var actual := simulator.TakeEffects();
      if actual != record.writes { return Err(EffectsDiverged(record.sequence)); }
      if engine.hash(simulator.state) != record.stateHash { return Err(StateDiverged(record.sequence)); }
      r := Ok(());
    }
  }
}
