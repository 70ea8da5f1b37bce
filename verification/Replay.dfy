/**
 Restoring a past state: the latest checkpoint at or before the target, then
 deterministic replay of the records after it.
 */
module Replay {
  import opened Prelude
  import opened Simulation
  import opened Timeline

  datatype ReplayError =
    | NotRetained
    | ExpectedTickAnchor(sequence: nat)
    | NoInstruction(sequence: nat)
    | LocationDiverged(sequence: nat)
    | OutcomeDiverged(sequence: nat)
    | MissingCheckpoint(sequence: nat)
    | EffectsDiverged(sequence: nat)
    | StateDiverged(sequence: nat)

  /** Prepare until the record's tick; meeting an instruction earlier is an error. */
  function CatchUp<S(!new)>(e: Engine<S>, s: S, pending: seq<Write>,
                     r: TraceRecord): Result<(S, seq<Write>), ReplayError>
    requires Lawful(e)
    decreases if e.tick(s) < r.tick then r.tick - e.tick(s) else 0
  {
    if e.tick(s) >= r.tick then Ok((s, pending))
    else
      var ready := e.prepare(s);
      if ready.location.Some? then Err(ExpectedTickAnchor(r.sequence))
      else CatchUp(e, ready.state, pending + ready.writes, r)
  }

  function Check<S>(e: Engine<S>, s: S, writes: seq<Write>, r: TraceRecord): Result<S, ReplayError> {
    if writes != r.writes then Err(EffectsDiverged(r.sequence))
    else if e.hash(s) != r.stateHash then Err(StateDiverged(r.sequence))
    else Ok(s)
  }

  function Finish<S>(e: Engine<S>, step: Step<S>, before: seq<Write>, r: TraceRecord): Result<S, ReplayError> {
    if step.error != r.error then Err(OutcomeDiverged(r.sequence))
    else Check(e, step.state, before + step.writes, r)
  }

  /** Replaying one record from state `s`. */
  function ReplayRecord<S(!new)>(e: Engine<S>, s: S, r: TraceRecord): Result<S, ReplayError>
    requires Lawful(e)
  {
    match r.action
    case External => Err(MissingCheckpoint(r.sequence))
    case Stop => Check(e, s, [], r)
    case Instruction(thread) => Finish(e, e.instruction(s, thread), [], r)
    case WorldTick => Finish(e, e.worldTick(s), [], r)
    case Scheduled =>
      match CatchUp(e, s, [], r)
      case Err(error) => Err(error)
      case Ok((waited, writes)) =>
        var ready := e.prepare(waited);
        if ready.location.None? then Err(NoInstruction(r.sequence))
        else if ready.location.value != (r.cpu, r.line) then Err(LocationDiverged(r.sequence))
        else Finish(e, e.scheduled(ready.state), writes + ready.writes, r)
  }

  /** Replaying, in order, the records with `from < sequence <= target`. */
  function ReplayRecords<S(!new)>(e: Engine<S>, s: S, rs: seq<TraceRecord>, from: nat,
                          target: nat): Result<S, ReplayError>
    requires Lawful(e)
  {
    if rs == [] then Ok(s)
    else if from < rs[0].sequence <= target then
      match ReplayRecord(e, s, rs[0])
      case Err(error) => Err(error)
      case Ok(s') => ReplayRecords(e, s', rs[1..], from, target)
    else ReplayRecords(e, s, rs[1..], from, target)
  }

  /** The last checkpoint at or before the target. */
  function LatestCheckpoint<S>(cs: seq<Checkpoint<S>>, target: nat): Option<Checkpoint<S>> {
    if cs == [] then None
    else if cs[|cs| - 1].sequence <= target then Some(cs[|cs| - 1])
    else LatestCheckpoint(cs[..|cs| - 1], target)
  }

  function Restored<S(!new)>(t: Timeline<S>, e: Engine<S>, target: nat): Result<S, ReplayError>
    requires Lawful(e)
  {
    match LatestCheckpoint(t.checkpoints, target)
    case None => Err(NotRetained)
    case Some(c) => ReplayRecords(e, c.snapshot, t.records, c.sequence, target)
  }

  // ----- replay reproduces what happened -----

  lemma {:induction false} CatchUpReproduces<S(!new)>(e: Engine<S>, s: S, k: nat, pending: seq<Write>, r: TraceRecord)
    requires Lawful(e) && Idle(e, s, k) && e.tick(AfterIdle(e, s, k)) == r.tick
    ensures e.tick(s) + k == r.tick
    ensures CatchUp(e, s, pending, r) == Ok((AfterIdle(e, s, k), pending + IdleWrites(e, s, k)))
    decreases k
  {
    if k > 0 {
      var ready := e.prepare(s);
      CatchUpReproduces(e, ready.state, k - 1, pending + ready.writes, r);
      assert pending + ready.writes + IdleWrites(e, ready.state, k - 1) == pending + IdleWrites(e, s, k);
    } else {
      assert pending + IdleWrites(e, s, 0) == pending;
    }
  }

  /**
   What replay cannot follow: a stop in a state with another hash than the state before it, and a record that
   drained more from the journal than its own writes.
   */
  ghost predicate Disturbed<S>(e: Engine<S>, s: S, r: TraceRecord, s': S) {
    if r.action == Stop then r.stateHash != e.hash(s)
    else r.action != External && exists held :: held != [] && Did(e, s, held, r, s')
  }

  function Divergence(r: TraceRecord): ReplayError {
    if r.action == Stop then StateDiverged(r.sequence) else EffectsDiverged(r.sequence)
  }

  lemma HeldIsExtra(held: seq<Write>, own: seq<Write>)
    ensures held + own == own <==> held == []
  {
    assert |held + own| == |held| + |own|;
  }

  lemma ReplaysScheduled<S(!new)>(e: Engine<S>, s: S, held: seq<Write>, r: TraceRecord, s': S)
    requires Lawful(e) && r.action == Scheduled && r.tick == e.tick(s') && r.stateHash == e.hash(s')
    requires Did(e, s, held, r, s')
    ensures ReplayRecord(e, s, r) == if held == [] then Ok(s') else Err(EffectsDiverged(r.sequence))
  {
    var k: nat :| RanScheduled(e, s, k, held, r, s');
    var waited := AfterIdle(e, s, k);
    var ready := e.prepare(waited);
    assert e.tick(e.scheduled(ready.state).state) == e.tick(waited);
    CatchUpReproduces(e, s, k, [], r);
    assert [] + IdleWrites(e, s, k) == IdleWrites(e, s, k);
    HeldIsExtra(held, IdleWrites(e, s, k) + ready.writes + e.scheduled(ready.state).writes);
  }

  lemma ReplaysHeld<S(!new)>(e: Engine<S>, s: S, held: seq<Write>, r: TraceRecord, s': S)
    requires Lawful(e) && r.tick == e.tick(s') && r.stateHash == e.hash(s') && Did(e, s, held, r, s')
    requires r.action != External && r.action != Stop
    ensures ReplayRecord(e, s, r) == if held == [] then Ok(s') else Err(EffectsDiverged(r.sequence))
  {
    match r.action
    case Scheduled => ReplaysScheduled(e, s, held, r, s');
    case Instruction(thread) =>
      var own := e.instruction(s, thread).writes;
      HeldIsExtra(held, own);
      assert [] + own == own;
    case WorldTick =>
      var own := e.worldTick(s).writes;
      HeldIsExtra(held, own);
      assert [] + own == own;
  }

  /** Any recorded transition but an external one replays to exactly the state it reached, unless it was disturbed. */
  lemma ReplayReproduces<S(!new)>(e: Engine<S>, s: S, r: TraceRecord, s': S)
    requires Lawful(e) && Happened(e, s, r, s') && r.action != External
    ensures ReplayRecord(e, s, r) == if Disturbed(e, s, r, s') then Err(Divergence(r)) else Ok(s')
  {
    if r.action != Stop {
      hide Did, ReplayRecord, Lawful;
      forall held | Did(e, s, held, r, s')
        ensures ReplayRecord(e, s, r) == if held == [] then Ok(s') else Err(EffectsDiverged(r.sequence))
      {
        ReplaysHeld(e, s, held, r, s');
      }
    }
  }

  lemma {:induction false} LatestCheckpointIs<S>(cs: seq<Checkpoint<S>>, target: nat)
    requires forall i, j :: 0 <= i < j < |cs| ==> cs[i].sequence < cs[j].sequence
    ensures match LatestCheckpoint(cs, target)
      case None => forall i :: 0 <= i < |cs| ==> cs[i].sequence > target
      case Some(c) =>
        (c.sequence <= target && c in cs
         && forall i :: 0 <= i < |cs| && cs[i].sequence <= target ==> cs[i].sequence <= c.sequence)
  {
    if cs != [] && cs[|cs| - 1].sequence > target { LatestCheckpointIs(cs[..|cs| - 1], target); }
  }

  ghost predicate DisturbedAt<S(!new)>(t: Timeline<S>, past: seq<S>, e: Engine<S>, i: nat)
    requires Contiguous(t) && |past| == t.next && i < |t.records|
  {
    var r := t.records[i];
    Disturbed(e, past[r.sequence - 1], r, past[r.sequence])
  }

  /** Where a replay of the records from index `i` on first fails. */
  ghost function FirstDisturbed<S(!new)>(t: Timeline<S>, past: seq<S>, e: Engine<S>, from: nat, target: nat,
                          i: nat): (r: Option<nat>)
    requires Contiguous(t) && |past| == t.next && i <= |t.records|
    ensures r.Some? ==> i <= r.value < |t.records|
    decreases |t.records| - i
  {
    if i == |t.records| then None
    else if from < t.records[i].sequence <= target && DisturbedAt(t, past, e, i) then Some(i)
    else FirstDisturbed(t, past, e, from, target, i + 1)
  }

  /** It is the first of the records to be replayed that is disturbed. */
  lemma {:induction false} FirstDisturbedIs<S(!new)>(t: Timeline<S>, past: seq<S>, e: Engine<S>, from: nat, target: nat,
                          i: nat)
    requires Contiguous(t) && |past| == t.next && i <= |t.records|
    ensures match FirstDisturbed(t, past, e, from, target, i)
      case None => forall j ::
        i <= j < |t.records| && from < t.records[j].sequence <= target ==> !DisturbedAt(t, past, e, j)
      case Some(d) =>
        (from < t.records[d].sequence <= target && DisturbedAt(t, past, e, d)
         && forall j :: i <= j < d && from < t.records[j].sequence <= target ==> !DisturbedAt(t, past, e, j))
    decreases |t.records| - i
  {
    hide Contiguous, DisturbedAt;
    if i < |t.records| { FirstDisturbedIs(t, past, e, from, target, i + 1); }
  }

  /**
   Replay from record `i` on, once past the checkpoint, follows the remembered past up to the first disturbed
   record.
   */
  lemma {:induction false} ReplayFollows<S(!new)>(t: Timeline<S>, past: seq<S>, e: Engine<S>, from: nat, target: nat,
                          i: nat, s: S)
    requires Lawful(e) && Remembers(t, past, e)
    requires i <= |t.records| && t.dropped <= from <= target && from < t.next
    requires forall j ::
        0 <= j < |t.records| && from < t.records[j].sequence <= target ==> t.records[j].action != External
    requires s == past[if t.dropped + i <= from then from else Min(t.dropped + i, target)]
    ensures ReplayRecords(e, s, t.records[i..], from, target) ==
      match FirstDisturbed(t, past, e, from, target, i)
      case None => Ok(past[Min(target, t.next - 1)])
      case Some(d) => Err(Divergence(t.records[d]))
    decreases |t.records| - i
  {
    hide Happened, ReplayRecord, Disturbed;
    if i < |t.records| {
      var r := t.records[i];
      assert t.records[i..][0] == r && t.records[i..][1..] == t.records[i + 1..];
      if from < r.sequence <= target {
        ReplayReproduces(e, s, r, past[r.sequence]);
        if !DisturbedAt(t, past, e, i) { ReplayFollows(t, past, e, from, target, i + 1, past[r.sequence]); }
      } else {
        ReplayFollows(t, past, e, from, target, i + 1, s);
      }
    }
  }

  /** The sequence number replay starts from, for a target in the window. */
  function Anchor<S>(t: Timeline<S>, target: nat): nat {
    match LatestCheckpoint(t.checkpoints, target) case None => 0 case Some(c) => c.sequence
  }

  /** What stands in the way of restoring `target`: the first disturbed record after its checkpoint. */
  ghost function Obstacle<S(!new)>(t: Timeline<S>, past: seq<S>, e: Engine<S>, target: nat): Option<nat>
    requires Contiguous(t) && |past| == t.next
  {
    FirstDisturbed(t, past, e, Anchor(t, target), target, 0)
  }

  /** A retained target is restorable exactly when no record between its checkpoint and it is disturbed. */
  lemma RestorableExactly<S(!new)>(t: Timeline<S>, past: seq<S>, e: Engine<S>, l: Limits<S>, target: nat)
    requires Lawful(e) && Window(t, past, e, l) && target >= t.dropped
    ensures Restored(t, e, target).Ok? <==>
      forall j :: 0 <= j < |t.records| && Anchor(t, target) < t.records[j].sequence <= target ==>
        !DisturbedAt(t, past, e, j)
  {
    RestoreIsExact(t, past, e, l, target);
    hide Window, DisturbedAt, Lawful, Anchor;
    FirstDisturbedIs(t, past, e, Anchor(t, target), target, 0) by { WindowShape(t, past, e, l); }
  }

  lemma WindowShape<S(!new)>(t: Timeline<S>, past: seq<S>, e: Engine<S>, l: Limits<S>)
    requires Window(t, past, e, l)
    ensures Contiguous(t) && |past| == t.next
  {}

  /**
   Time travel is exact: a target from the oldest checkpoint on restores precisely the remembered state (targets
   beyond the newest record, the newest), if and only if no record after its checkpoint and up to it was disturbed;
   else it fails at the first that was. Older targets are refused, and nothing else can go wrong.
   */
  lemma RestoreIsExact<S(!new)>(t: Timeline<S>, past: seq<S>, e: Engine<S>, l: Limits<S>, target: nat)
    requires Lawful(e) && Window(t, past, e, l)
    ensures Restored(t, e, target) ==
      if target < t.dropped then Err(NotRetained)
      else match Obstacle(t, past, e, target)
        case None => Ok(past[Min(target, t.next - 1)])
        case Some(d) => Err(Divergence(t.records[d]))
  {
    LatestCheckpointIs(t.checkpoints, target);
    match LatestCheckpoint(t.checkpoints, target)
    case None =>
    case Some(c) =>
      var k :| 0 <= k < |t.checkpoints| && t.checkpoints[k] == c;
      assert t.dropped <= c.sequence by { if k > 0 { assert t.checkpoints[0].sequence < t.checkpoints[k].sequence; } }
      forall j | 0 <= j < |t.records| && c.sequence < t.records[j].sequence <= target
        ensures t.records[j].action != External
      {
        AnchorOf(t, l, j);
      }
      assert t.records[0..] == t.records;
      ReplayFollows(t, past, e, c.sequence, target, 0, c.snapshot);
  }

  /** A checkpoint of its own makes any state restorable, disturbed or not. */
  lemma CheckpointedRestores<S(!new)>(t: Timeline<S>, past: seq<S>, e: Engine<S>, l: Limits<S>, target: nat)
    requires Lawful(e) && Window(t, past, e, l) && HasCheckpoint(t, target)
    ensures target < |past| && Restored(t, e, target) == Ok(past[target])
  {
    hide Disturbed, Happened;
    LatestCheckpointIs(t.checkpoints, target);
    FirstDisturbedIs(t, past, e, Anchor(t, target), target, 0);
    var k :| 0 <= k < |t.checkpoints| && t.checkpoints[k].sequence == target;
    assert t.dropped <= target by { if k > 0 { assert t.checkpoints[0].sequence < t.checkpoints[k].sequence; } }
    RestoreIsExact(t, past, e, l, target);
  }

  // ----- stops -----

  /** An engine with one instruction per tick whose state is the pair (tick, instruction done). */
  function OneShot(): Engine<(nat, bool)> {
    Engine(
      (s: (nat, bool)) => s.0,
      (s: (nat, bool)) => 2 * s.0 + if s.1 then 1 else 0,
      (s: (nat, bool)) => if s.1 then Prepared((s.0 + 1, false), None, []) else Prepared(s, Some((0, 0)), []),
      (s: (nat, bool)) => Step((s.0, true), None, []),
      (s: (nat, bool), thread: nat) => Step((s.0, true), None, []),
      (s: (nat, bool)) => Step((s.0 + 1, false), None, []))
  }

  /**
   The run loop looks for the next instruction before it tests breakpoints, and
   that look may advance the tick. A breakpoint hit on a new tick therefore
   records a stop in a state no earlier record reached, and restoring that stop
   from the checkpoint before it fails.
   */
  lemma BreakpointOnNewTickBreaksRestore(r: TraceRecord)
    requires r.sequence == 1 && r.action == Stop && r.writes == [] && r.error == None
    requires var e := OneShot(); var done := (0, true);
      var stopped := e.prepare(done).state;
      r.tick == e.tick(stopped) && r.stateHash == e.hash(stopped)
    ensures Lawful(OneShot())
    ensures var t := Timeline([r], [Checkpoint(0, (0, true), 0)], 1, 2, 0, 0);
      Restored(t, OneShot(), 1) == Err(StateDiverged(1))
  {
    var t := Timeline([r], [Checkpoint(0, (0, true), 0)], 1, 2, 0, 0);
    assert LatestCheckpoint(t.checkpoints, 1) == Some(t.checkpoints[0]) by {
      assert t.checkpoints[..0] == [];
    }
    assert ReplayRecord(OneShot(), (0, true), r) == Err(StateDiverged(1));
  }
}
