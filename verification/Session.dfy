/** Whole debugging sessions: any interleaving of recording and time travel, from a fresh history. */
module Session {
  import opened Prelude
  import opened Simulation
  import opened Timeline
  import opened Recording
  import opened Replay

  /**
   Something was recorded, reached `state` and left `left` in the journal, or the user went to a sequence number.
   Only a stop leaves anything: the writes of the search for the next instruction, on top of what was there.
   */
  datatype Event<+S> = Recorded(record: TraceRecord, state: S, left: seq<Write>) | WentTo(target: nat)

  /**
   The simulator is in the state of the cursor, with these writes in its journal, or a failed replay left it
   elsewhere.
   */
  datatype Live = There(journal: seq<Write>) | Lost

  /** A history together with the states it remembers. */
  datatype Debugging<S> = Debugging(timeline: Timeline<S>, past: seq<S>, live: Live)

  function Fresh<S>(state: S, bytes: nat): Debugging<S> {
    Debugging(Timeline([], [Checkpoint(0, state, bytes)], 0, 1, 0, bytes), [state], There([]))
  }

  /** Recording goes on from the state of the cursor; after a failed replay the user must travel first. */
  ghost predicate Possible<S(!new)>(d: Debugging<S>, e: Engine<S>, event: Event<S>)
    requires d.timeline.next > 0 && |d.past| == d.timeline.next
  {
    match event
    case WentTo(_) => true
    case Recorded(r, state, left) =>
      && d.live.There? && r.sequence == Position(d.timeline) + 1 && r.tick == e.tick(state) &&
          r.stateHash == e.hash(state)
      && Did(e, d.past[Position(d.timeline)], d.live.journal, r, state)
      && if r.action == Stop then d.live.journal <= left else left == []
  }

  lemma PossibleHappens<S(!new)>(d: Debugging<S>, e: Engine<S>, r: TraceRecord, state: S, left: seq<Write>)
    requires d.timeline.next > 0 && |d.past| == d.timeline.next && Possible(d, e, Recorded(r, state, left))
    ensures Happened(e, d.past[Position(d.timeline)], r, state)
  {}

  function Here<S>(r: TraceRecord, state: S, l: Limits<S>): Checkpoint<S> {
    Checkpoint(r.sequence, state, l.snapshotBytes(state))
  }

  lemma RecordingStores<S(!new)>(d: Debugging<S>, e: Engine<S>, l: Limits<S>, r: TraceRecord, state: S,
                          left: seq<Write>)
    requires Window(d.timeline, d.past, e, l) && Possible(d, e, Recorded(r, state, left))
    ensures l.Sound() && Truncated(d.timeline, l).checkpoints != []
    ensures var s := Stored(d.timeline, r, Here(r, state, l), l); Contiguous(s) && r.sequence == s.cursor == s.next - 1
    ensures var u := Evicted(Stored(d.timeline, r, Here(r, state, l), l), Here(r, state, l), l);
      && Window(u, d.past[..Position(d.timeline) + 1] + [state], e, l) && Continues(d.timeline, r, u)
      && Position(u) == r.sequence
  {
    assert Position(d.timeline) + 1 <= |d.past|;
    PossibleHappens(d, e, r, state, left);
    hide Happened, Did, Remembers, Anchored, Stored, Truncated, Evicted;
    var past := d.past[..Position(d.timeline) + 1] + [state];
    var s, u := RecordKeepsWindow(d.timeline, d.past, e, l, r, Here(r, state, l), past);
  }

  /** Where travelling leaves the debugger. */
  function Travelled<S(!new)>(d: Debugging<S>, e: Engine<S>, target: nat): Debugging<S>
    requires Lawful(e)
  {
    match Restored(d.timeline, e, target)
    case Ok(_) => d.(timeline := d.timeline.(cursor := target), live := There([]))
    case Err(error) => if error == NotRetained then d else d.(live := Lost)
  }

  function Next<S(!new)>(d: Debugging<S>, e: Engine<S>, l: Limits<S>, event: Event<S>): Debugging<S>
    requires Lawful(e) && Window(d.timeline, d.past, e, l) && Possible(d, e, event)
  {
    match event
    case WentTo(target) => Travelled(d, e, target)
    case Recorded(r, state, left) =>
      RecordingStores(d, e, l, r, state, left);
      Debugging(Evicted(Stored(d.timeline, r, Here(r, state, l), l), Here(r, state, l), l),
                d.past[..Position(d.timeline) + 1] + [state], There(left))
  }

  lemma NextKeepsWindow<S(!new)>(d: Debugging<S>, e: Engine<S>, l: Limits<S>, event: Event<S>)
    requires Lawful(e) && Window(d.timeline, d.past, e, l) && Possible(d, e, event)
    ensures Window(Next(d, e, l, event).timeline, Next(d, e, l, event).past, e, l)
  {
    assert event.Recorded? ==> Position(d.timeline) + 1 <= |d.past|;
    hide Window, Possible, Stored, Evicted, Truncated, Happened, Did, Restored, Obstacle, Lawful;
    match event
    case WentTo(target) =>
      RestoreIsExact(d.timeline, d.past, e, l, target);
      CursorMoves(d.timeline, d.past, e, l, target);
    case Recorded(r, state, left) => RecordingStores(d, e, l, r, state, left);
  }

  /** Every event is possible when it comes. */
  ghost predicate IsSession<S(!new)>(d: Debugging<S>, e: Engine<S>, l: Limits<S>, events: seq<Event<S>>)
    requires Lawful(e) && Window(d.timeline, d.past, e, l)
    decreases |events|
  {
    events == [] ||
    (Possible(d, e, events[0]) &&
     (NextKeepsWindow(d, e, l, events[0]); IsSession(Next(d, e, l, events[0]), e, l, events[1..])))
  }

  ghost function After<S(!new)>(d: Debugging<S>, e: Engine<S>, l: Limits<S>, events: seq<Event<S>>): (r: Debugging<S>)
    requires Lawful(e) && Window(d.timeline, d.past, e, l) && IsSession(d, e, l, events)
    ensures Window(r.timeline, r.past, e, l)
    decreases |events|
  {
    if events == [] then d
    else
      NextKeepsWindow(d, e, l, events[0]);
      After(Next(d, e, l, events[0]), e, l, events[1..])
  }

  lemma FreshWindow<S(!new)>(state: S, bytes: nat, e: Engine<S>, l: Limits<S>)
    requires l.Sound()
    ensures var d := Fresh(state, bytes); Window(d.timeline, d.past, e, l)
  {}

  /**
   After any session whatever, every retained sequence number whose replay meets no disturbed record restores to
   exactly the state it was recorded in, the others fail at the first disturbed record, older ones are refused,
   and the number of records respects the limit.
   */
  lemma SessionsTravelExactly<S(!new)>(state: S, bytes: nat, e: Engine<S>, l: Limits<S>, events: seq<Event<S>>,
                          target: nat)
    requires Lawful(e) && l.Sound() && Window(Fresh(state, bytes).timeline, [state], e, l)
    requires IsSession(Fresh(state, bytes), e, l, events)
    ensures var d := After(Fresh(state, bytes), e, l, events);
      && |d.timeline.records| <= l.maxEvents && |d.past| == d.timeline.next > 0
      && Restored(d.timeline, e, target) ==
           if target < d.timeline.dropped then Err(NotRetained)
           else match Obstacle(d.timeline, d.past, e, target)
             case None => Ok(d.past[Min(target, d.timeline.next - 1)])
             case Some(i) => Err(Divergence(d.timeline.records[i]))
  {
    var d := After(Fresh(state, bytes), e, l, events);
    hide IsSession, After, Obstacle, Restored;
    RestoreIsExact(d.timeline, d.past, e, l, target);
  }

  /** What the past holds for a number changes only when that number is recorded anew. */
  lemma PastIsKept<S(!new)>(d: Debugging<S>, e: Engine<S>, l: Limits<S>, event: Event<S>, q: nat)
    requires Lawful(e) && Window(d.timeline, d.past, e, l) && Possible(d, e, event) && q < |d.past|
    requires event.Recorded? ==> q < event.record.sequence
    ensures q < |Next(d, e, l, event).past| && Next(d, e, l, event).past[q] == d.past[q]
  {
    hide Evicted, Stored, Anchored, Happened, Did, Restored;
  }

  // ----- only stops disturb -----

  predicate IsStop<S>(t: Timeline<S>, sequence: nat)
    requires Contiguous(t)
  {
    t.dropped < sequence < t.next && t.records[sequence - t.dropped - 1].action == Stop
  }

  /** A disturbed record is a stop, or comes directly after one; the journal holds something only after one. */
  ghost predicate Explained<S(!new)>(d: Debugging<S>, e: Engine<S>)
    requires Contiguous(d.timeline) && |d.past| == d.timeline.next
  {
    var t := d.timeline;
    && (forall i :: 0 < i < |t.records| && DisturbedAt(t, d.past, e, i) ==>
          t.records[i].action == Stop || t.records[i - 1].action == Stop)
    && (d.live.There? && d.live.journal != [] ==> Position(t) == t.dropped || IsStop(t, Position(t)))
  }

  lemma DisturbedMeansHeld<S(!new)>(e: Engine<S>, s: S, held: seq<Write>, r: TraceRecord, s': S)
    requires Lawful(e) && r.tick == e.tick(s') && r.stateHash == e.hash(s') && Did(e, s, held, r, s')
    requires Disturbed(e, s, r, s')
    ensures r.action == Stop || held != []
  {
    if r.action != Stop {
      hide Did, ReplayRecord, Lawful;
      var other :| other != [] && Did(e, s, other, r, s');
      ReplaysHeld(e, s, held, r, s');
      ReplaysHeld(e, s, other, r, s');
    }
  }

  lemma NextExplains<S(!new)>(d: Debugging<S>, e: Engine<S>, l: Limits<S>, event: Event<S>)
    requires Lawful(e) && Window(d.timeline, d.past, e, l) && Possible(d, e, event) && Explained(d, e)
    ensures var u := Next(d, e, l, event); Window(u.timeline, u.past, e, l) && Explained(u, e)
  {
    NextKeepsWindow(d, e, l, event);
    match event
    case WentTo(target) => TravelExplains(d, e, l, target);
    case Recorded(r, state, left) => RecordingExplains(d, e, l, r, state, left);
  }

  lemma TravelExplains<S(!new)>(d: Debugging<S>, e: Engine<S>, l: Limits<S>, target: nat)
    requires Lawful(e) && Window(d.timeline, d.past, e, l) && Explained(d, e)
    requires var u := Travelled(d, e, target); Window(u.timeline, u.past, e, l)
    ensures var u := Travelled(d, e, target); Explained(u, e)
  {
    hide Disturbed, Restored, Lawful, Anchored, Happened;
    var u := Travelled(d, e, target);
    assert forall i ::
        0 <= i < |u.timeline.records| ==>
          (DisturbedAt(u.timeline, u.past, e, i) <==> DisturbedAt(d.timeline, d.past, e, i));
  }

  lemma RecordedIs<S(!new)>(d: Debugging<S>, e: Engine<S>, l: Limits<S>, r: TraceRecord, state: S, left: seq<Write>)
    requires Lawful(e) && Window(d.timeline, d.past, e, l) && Possible(d, e, Recorded(r, state, left))
    ensures var u := Next(d, e, l, Recorded(r, state, left));
      && Position(d.timeline) + 1 <= |d.past|
      && u == Debugging(u.timeline, d.past[..Position(d.timeline) + 1] + [state], There(left))
      && Window(u.timeline, u.past, e, l) && Continues(d.timeline, r, u.timeline)
  {
    assert Position(d.timeline) + 1 <= |d.past|;
    RecordingStores(d, e, l, r, state, left);
    hide Window, Lawful, Possible, Stored, Evicted, Truncated, Continues;
  }

  lemma RecordingExplains<S(!new)>(d: Debugging<S>, e: Engine<S>, l: Limits<S>, r: TraceRecord, state: S,
                          left: seq<Write>)
    requires Lawful(e) && Window(d.timeline, d.past, e, l) && Possible(d, e, Recorded(r, state, left))
    requires Explained(d, e)
    ensures var u := Next(d, e, l, Recorded(r, state, left)); Window(u.timeline, u.past, e, l) && Explained(u, e)
  {
    RecordedIs(d, e, l, r, state, left);
    hide Next, Happened, Anchored, Explained, Lawful, Contiguous, Continues, Possible;
    var u := Next(d, e, l, Recorded(r, state, left));
    ContinuingExplains(d, e, r, state, left, u.timeline, u.past);
  }

  /** The record before index `i` of the timeline after recording. */
  lemma ContinuedRecords<S>(t: Timeline<S>, r: TraceRecord, u: Timeline<S>, i: nat)
    requires Continues(t, r, u) && i < |u.records|
    ensures var n, k := Position(t) - t.dropped, i + u.dropped - t.dropped;
      && k <= n <= |t.records| && u.records[i] == (if k < n then t.records[k] else r)
      && (i > 0 ==> u.records[i - 1] == t.records[k - 1])
  {
    var all := t.records[..Position(t) - t.dropped] + [r];
    assert u.records[i] == all[i + u.dropped - t.dropped];
    assert i > 0 ==> u.records[i - 1] == all[i + u.dropped - t.dropped - 1];
  }

  lemma ContinuingExplains<S(!new)>(d: Debugging<S>, e: Engine<S>, r: TraceRecord, state: S, left: seq<Write>,
                          u: Timeline<S>, past: seq<S>)
    requires Lawful(e) && Remembers(d.timeline, d.past, e) && Possible(d, e, Recorded(r, state, left))
    requires Explained(d, e)
    requires Remembers(u, past, e) && Continues(d.timeline, r, u) && Position(d.timeline) + 1 <= |d.past|
    requires past == d.past[..Position(d.timeline) + 1] + [state]
    ensures Explained(Debugging(u, past, There(left)), e)
  {
    var n := Position(d.timeline) - d.timeline.dropped;
    assert DisturbedMeans(e, d, r, state) by {
      if Disturbed(e, d.past[Position(d.timeline)], r, state) {
        DisturbedMeansHeld(e, d.past[Position(d.timeline)], d.live.journal, r, state);
      }
    }
    assert left != [] ==> r.action == Stop;
    hide Disturbed, Did, Happened, Lawful, Possible;
    forall i | 0 < i < |u.records| && DisturbedAt(u, past, e, i)
      ensures u.records[i].action == Stop || u.records[i - 1].action == Stop {
      ContinuedExplained(d, e, r, state, u, past, i);
    }
    NewestContinues(d.timeline, r, u);
  }

  lemma NewestContinues<S>(t: Timeline<S>, r: TraceRecord, u: Timeline<S>)
    requires Continues(t, r, u) && Contiguous(u)
    ensures Position(u) == r.sequence
    ensures (Position(u) == u.dropped || (u.records != [] && u.records[|u.records| - 1] == r))
  {
    if u.records != [] { ContinuedRecords(t, r, u, |u.records| - 1); }
  }

  lemma ContinuedExplained<S(!new)>(d: Debugging<S>, e: Engine<S>, r: TraceRecord, state: S, u: Timeline<S>,
                          past: seq<S>, i: nat)
    requires Remembers(d.timeline, d.past, e) && d.live.There? && DisturbedMeans(e, d, r, state) && Explained(d, e)
    requires Remembers(u, past, e) && Continues(d.timeline, r, u) && Position(d.timeline) + 1 <= |d.past|
    requires past == d.past[..Position(d.timeline) + 1] + [state]
    requires 0 < i < |u.records| && DisturbedAt(u, past, e, i)
    ensures u.records[i].action == Stop || u.records[i - 1].action == Stop
  {
    hide Disturbed, Did, Happened;
    var t, n := d.timeline, Position(d.timeline) - d.timeline.dropped;
    var k := i + u.dropped - t.dropped;
    ContinuedRecords(t, r, u, i);
    if k < n { assert DisturbedAt(t, d.past, e, k); }
  }

  /** The record just made was disturbed only if it is a stop or the journal held something. */
  ghost predicate DisturbedMeans<S(!new)>(e: Engine<S>, d: Debugging<S>, r: TraceRecord, state: S)
    requires Contiguous(d.timeline) && |d.past| == d.timeline.next && d.live.There?
  {
    Disturbed(e, d.past[Position(d.timeline)], r, state) ==> r.action == Stop || d.live.journal != []
  }

  lemma {:induction false} AfterExplains<S(!new)>(d: Debugging<S>, e: Engine<S>, l: Limits<S>, events: seq<Event<S>>)
    requires Lawful(e) && Window(d.timeline, d.past, e, l) && IsSession(d, e, l, events) && Explained(d, e)
    ensures Explained(After(d, e, l, events), e)
    decreases |events|
  {
    hide Explained, Next, Window, Lawful, Possible;
    if events != [] {
      NextExplains(d, e, l, events[0]);
      AfterExplains(Next(d, e, l, events[0]), e, l, events[1..]);
    }
  }

  /** In any session, what stands in the way of a target is a stop that moved, or the record directly after a stop. */
  lemma OnlyStopsHinder<S(!new)>(state: S, bytes: nat, e: Engine<S>, l: Limits<S>, events: seq<Event<S>>, target: nat)
    requires Lawful(e) && l.Sound() && Window(Fresh(state, bytes).timeline, [state], e, l)
    requires IsSession(Fresh(state, bytes), e, l, events)
    ensures var d := After(Fresh(state, bytes), e, l, events);
      match Obstacle(d.timeline, d.past, e, target)
      case None => true
      case Some(i) =>
        (i < |d.timeline.records| &&
          (i == 0 || d.timeline.records[i].action == Stop || d.timeline.records[i - 1].action == Stop))
  {
    AfterExplains(Fresh(state, bytes), e, l, events);
    hide After, IsSession, Disturbed;
    var d := After(Fresh(state, bytes), e, l, events);
    FirstDisturbedIs(d.timeline, d.past, e, Anchor(d.timeline, target), target, 0);
  }
}
