/**
 The simulator as the debugger sees it: a deterministic engine over an opaque
 state `S`, the journal of writes it fills, and the relation between two
 consecutive recorded states.
 */
module Simulation {
  import opened Prelude

  /** One journalled store: the named location, its bits before and after. */
  datatype Write = Write(target: string, before: nat, after: nat)

  /** What `next_scheduled_location` does: it may advance the tick and find nothing to run. */
  datatype Prepared<+S> = Prepared(state: S, location: Option<(nat, nat)>, writes: seq<Write>)

  /** One execution step; an error leaves the state the failing step reached. */
  datatype Step<+S> = Step(state: S, error: Option<string>, writes: seq<Write>)

  datatype Engine<!S> = Engine(
    tick: S -> nat,
    hash: S -> nat,
    prepare: S -> Prepared<S>,
    scheduled: S -> Step<S>,
    instruction: (S, nat) -> Step<S>,
    worldTick: S -> Step<S>)

  /**
   Preparing advances the tick by one exactly when no instruction is left in it; stepping the one it found does not.
   */
  ghost predicate Lawful<S(!new)>(e: Engine<S>) {
    && (forall s :: e.tick(e.prepare(s).state) == e.tick(s) + if e.prepare(s).location.None? then 1 else 0)
    && (forall s :: e.prepare(s).location.Some? ==>
          e.tick(e.scheduled(e.prepare(s).state).state) == e.tick(e.prepare(s).state))
  }

  datatype Action = Scheduled | Instruction(thread: nat) | WorldTick | External | Stop

  datatype TraceRecord = TraceRecord(
    sequence: nat, tick: nat, cpu: nat, line: nat, action: Action,
    writes: seq<Write>, error: Option<string>, stateHash: nat)

  /** `k` consecutive preparations found no instruction. */
  ghost predicate Idle<S>(e: Engine<S>, s: S, k: nat) {
    k > 0 ==> e.prepare(s).location.None? && Idle(e, e.prepare(s).state, k - 1)
  }

  /** The state after `k` preparations. */
  function AfterIdle<S>(e: Engine<S>, s: S, k: nat): S {
    if k == 0 then s else AfterIdle(e, e.prepare(s).state, k - 1)
  }

  function IdleWrites<S>(e: Engine<S>, s: S, k: nat): seq<Write> {
    if k == 0 then [] else e.prepare(s).writes + IdleWrites(e, e.prepare(s).state, k - 1)
  }

  /**
   The scheduled run loop: `k` empty ticks, then the instruction at the record's location. `held` is what the
   journal already held, which the record drains as well.
   */
  ghost predicate RanScheduled<S>(e: Engine<S>, s: S, k: nat, held: seq<Write>, r: TraceRecord, s': S) {
    var waited := AfterIdle(e, s, k);
    var ready := e.prepare(waited);
    var step := e.scheduled(ready.state);
    && Idle(e, s, k)
    && ready.location == Some((r.cpu, r.line))
    && s' == step.state && r.error == step.error
    && r.writes == held + (IdleWrites(e, s, k) + ready.writes + step.writes)
  }

  /** One step of the engine, journalled after what the journal held. */
  ghost predicate Ran<S>(step: Step<S>, held: seq<Write>, r: TraceRecord, s': S) {
    s' == step.state && r.error == step.error && r.writes == held + step.writes
  }

  /**
   The live debugger, its journal holding `held`, went from `s` to `s'` and described that change by `r`. A stop
   may follow a search for the next instruction and so be recorded anywhere, but not in another state with the
   hash of the one before.
   */
  ghost predicate Did<S>(e: Engine<S>, s: S, held: seq<Write>, r: TraceRecord, s': S) {
    match r.action
    case Scheduled => exists k: nat :: RanScheduled(e, s, k, held, r, s')
    case Instruction(thread) => Ran(e.instruction(s, thread), held, r, s')
    case WorldTick => Ran(e.worldTick(s), held, r, s') && r.error == None
    case External => true
    case Stop => r.writes == [] && r.error == None && (e.hash(s') == e.hash(s) ==> s' == s)
  }

  ghost predicate Happened<S>(e: Engine<S>, s: S, r: TraceRecord, s': S) {
    r.tick == e.tick(s') && r.stateHash == e.hash(s') && exists held :: Did(e, s, held, r, s')
  }

  /**
   A running simulator. `pending` is the journal that `take_effects` drains.
   */
  class Simulator<!S(!new)> {
    const engine: Engine<S>
    var state: S
    var pending: seq<Write>

    constructor (engine: Engine<S>, state: S)
      ensures this.engine == engine && this.state == state && pending == []
    {
      this.engine, this.state, this.pending := engine, state, [];
    }

    method Restore(snapshot: S)
      modifies this
      ensures state == snapshot && pending == []
    {
      state, pending := snapshot, [];
    }

    method NextScheduledLocation() returns (location: Option<(nat, nat)>)
      modifies this
      ensures state == engine.prepare(old(state)).state
      ensures location == engine.prepare(old(state)).location
      ensures pending == old(pending) + engine.prepare(old(state)).writes
    {
      var ready := engine.prepare(state);
      state, pending, location := ready.state, pending + ready.writes, ready.location;
    }

    method Run(step: Step<S>) returns (error: Option<string>)
      modifies this
      ensures state == step.state && error == step.error && pending == old(pending) + step.writes
    {
      state, pending, error := step.state, pending + step.writes, step.error;
    }

    method TakeEffects() returns (writes: seq<Write>)
      modifies this`pending
      ensures writes == old(pending) && pending == []
    {
      writes := pending;
      pending := [];
    }
  }
}
