/**
 Where the differences between remembered states are complete: if every step of the engine journals what it changes,
 so do the records of every session, a stop's changes being listed by the record that drains its writes.
 */
module Journalling {
  import opened Prelude
  import opened Simulation
  import opened Timeline
  import opened Recording
  import opened Replay
  import opened Session
  import opened StateDiff

  // ----- journals -----

  lemma {:induction false} AfterComposes(value: nat, first: seq<Write>, second: seq<Write>, target: string)
    requires StateDiff.After(value, first, target).Some?
    ensures StateDiff.After(value, first + second, target) ==
        StateDiff.After(StateDiff.After(value, first, target).value, second, target)
    decreases |first|
  {
    if first == [] {
      assert first + second == second;
    } else {
      assert (first + second)[1..] == first[1..] + second;
      AfterComposes(if first[0].target == target then first[0].after else value, first[1..], second, target);
    }
  }

  lemma JournalsCompose<S(!new)>(read: (S, string) -> nat, s: S, first: seq<Write>, m: S, second: seq<Write>, s': S)
    requires Journals(read, s, first, m) && Journals(read, m, second, s')
    ensures Journals(read, s, first + second, s')
  {
    forall target ensures StateDiff.After(read(s, target), first + second, target) == Some(read(s', target)) {
      assert StateDiff.After(read(s, target), first, target) == Some(read(m, target));
      AfterComposes(read(s, target), first, second, target);
    }
  }

  /** Every step of the engine lists what it changes of the locations read. */
  ghost predicate StepsJournal<S(!new)>(e: Engine<S>, read: (S, string) -> nat) {
    && (forall s :: Journals(read, s, e.prepare(s).writes, e.prepare(s).state))
    && (forall s :: Journals(read, s, e.scheduled(s).writes, e.scheduled(s).state))
    && (forall s, thread :: Journals(read, s, e.instruction(s, thread).writes, e.instruction(s, thread).state))
    && (forall s :: Journals(read, s, e.worldTick(s).writes, e.worldTick(s).state))
  }

  lemma {:induction false} IdleJournals<S(!new)>(e: Engine<S>, read: (S, string) -> nat, s: S, k: nat)
    requires StepsJournal(e, read)
    ensures Journals(read, s, IdleWrites(e, s, k), AfterIdle(e, s, k))
    decreases k
  {
    if k > 0 {
      var ready := e.prepare(s);
      IdleJournals(e, read, ready.state, k - 1);
      hide Journals;
      JournalsCompose(read, s, ready.writes, ready.state, IdleWrites(e, ready.state, k - 1), AfterIdle(e, s, k));
    }
  }

  /** What a recorded step adds to the journal accounts for what it changed. */
  lemma StepJournals<S(!new)>(e: Engine<S>, read: (S, string) -> nat, s: S, held: seq<Write>, r: TraceRecord, s': S)
    returns (own: seq<Write>)
    requires StepsJournal(e, read) && Did(e, s, held, r, s') && r.action != Stop && r.action != External
    ensures r.writes == held + own && Journals(read, s, own, s')
  {
    match r.action
    case Scheduled =>
      var k: nat :| RanScheduled(e, s, k, held, r, s');
      var waited := AfterIdle(e, s, k);
      var ready := e.prepare(waited);
      var step := e.scheduled(ready.state);
      own := IdleWrites(e, s, k) + ready.writes + step.writes;
      IdleJournals(e, read, s, k);
      hide Journals;
      JournalsCompose(read, s, IdleWrites(e, s, k), waited, ready.writes, ready.state);
      JournalsCompose(read, s, IdleWrites(e, s, k) + ready.writes, ready.state, step.writes, s');
    case Instruction(thread) => own := e.instruction(s, thread).writes;
    case WorldTick => own := e.worldTick(s).writes;
  }

  // ----- sessions -----

  /**
   What happens outside the engine's steps is journalled too: an external change by its record, the search for the
   next instruction before a stop by what the stop leaves in the journal. With `still`, no stop moves.
   */
  ghost predicate EventJournals<S(!new)>(d: Debugging<S>, event: Event<S>, read: (S, string) -> nat, still: bool)
    requires d.timeline.next > 0 && |d.past| == d.timeline.next
  {
    event.Recorded? && d.live.There? ==>
      var s, journal := d.past[Position(d.timeline)], d.live.journal;
      match event.record.action
      case External =>
        journal <= event.record.writes && Journals(read, s, event.record.writes[|journal|..], event.state)
      case Stop =>
        && journal <= event.left && Journals(read, s, event.left[|journal|..], event.state)
        && (still ==> event.state == s)
      case _ => true
  }

  ghost predicate SessionJournals<S(!new)>(d: Debugging<S>, e: Engine<S>, l: Limits<S>, events: seq<Event<S>>,
                                           read: (S, string) -> nat, still: bool)
    requires Lawful(e) && Window(d.timeline, d.past, e, l) && IsSession(d, e, l, events)
    decreases |events|
  {
    events == [] ||
    (EventJournals(d, events[0], read, still) &&
     (NextKeepsWindow(d, e, l, events[0]);
      SessionJournals(Next(d, e, l, events[0]), e, l, events[1..], read, still)))
  }

  // ----- what the records account for -----

  /** Only stops lie between the states numbered `b` and `q`; with `still` they are the same state. */
  ghost predicate OnlyStops<S>(t: Timeline<S>, past: seq<S>, b: nat, q: nat, still: bool)
    requires Contiguous(t) && |past| == t.next && q < t.next
  {
    && b <= q
    && (forall k :: 0 <= k < |t.records| && b < t.records[k].sequence <= q ==> t.records[k].action == Stop)
    && (still ==> past[b] == past[q])
  }

  /** The writes account for everything that changed from a state with only stops in between up to `s`. */
  ghost predicate Accounts<S(!new)>(t: Timeline<S>, past: seq<S>, read: (S, string) -> nat, still: bool, q: nat,
                                    writes: seq<Write>, s: S)
    requires Contiguous(t) && |past| == t.next && q < t.next
  {
    exists b: nat :: b <= q && OnlyStops(t, past, b, q, still) && Journals(read, past[b], writes, s)
  }

  /** Each record that is no stop accounts for its own change and those of the stops it follows. */
  ghost predicate RecordAccounts<S(!new)>(t: Timeline<S>, past: seq<S>, read: (S, string) -> nat, still: bool, i: nat)
    requires Contiguous(t) && |past| == t.next && i < |t.records|
  {
    var r := t.records[i];
    if r.action == Stop then r.writes == [] && (still ==> past[r.sequence] == past[r.sequence - 1])
    else Accounts(t, past, read, still, r.sequence - 1, r.writes, past[r.sequence])
  }

  ghost predicate Accounted<S(!new)>(d: Debugging<S>, read: (S, string) -> nat, still: bool)
    requires Contiguous(d.timeline) && |d.past| == d.timeline.next
  {
    && (forall i :: 0 <= i < |d.timeline.records| ==> RecordAccounts(d.timeline, d.past, read, still, i))
    && (d.live.There? ==>
          Accounts(d.timeline, d.past, read, still, Position(d.timeline), d.live.journal, d.past[Position(d.timeline)]))
  }

  lemma NothingAccounts<S(!new)>(t: Timeline<S>, past: seq<S>, read: (S, string) -> nat, still: bool, q: nat)
    requires Contiguous(t) && |past| == t.next && q < t.next
    ensures Accounts(t, past, read, still, q, [], past[q])
  {
    assert OnlyStops(t, past, q, q, still) && Journals(read, past[q], [], past[q]);
  }

  lemma TravelAccounts<S(!new)>(d: Debugging<S>, e: Engine<S>, l: Limits<S>, target: nat, read: (S, string) -> nat,
                                still: bool)
    requires Lawful(e) && Window(d.timeline, d.past, e, l) && Accounted(d, read, still)
    requires var u := Travelled(d, e, target); Window(u.timeline, u.past, e, l)
    ensures Accounted(Travelled(d, e, target), read, still)
  {
    hide Restored, Lawful, Anchored, Happened, Journals;
    var u := Travelled(d, e, target);
    forall i | 0 <= i < |u.timeline.records| ensures RecordAccounts(u.timeline, u.past, read, still, i) {
      assert RecordAccounts(d.timeline, d.past, read, still, i);
      SameRecordsAccount(d.timeline, u.timeline, d.past, read, still, i);
    }
    if u.live.There? && u != d { NothingAccounts(u.timeline, u.past, read, still, Position(u.timeline)); }
  }

  lemma SameRecordsAccount<S(!new)>(t: Timeline<S>, u: Timeline<S>, past: seq<S>, read: (S, string) -> nat,
                                    still: bool, i: nat)
    requires Contiguous(t) && Contiguous(u) && |past| == t.next && u == t.(cursor := u.cursor) && i < |t.records|
    requires RecordAccounts(t, past, read, still, i)
    ensures RecordAccounts(u, past, read, still, i)
  {
    hide Journals;
    var r := t.records[i];
    if r.action != Stop {
      var b: nat :| b < r.sequence && OnlyStops(t, past, b, r.sequence - 1, still) &&
          Journals(read, past[b], r.writes, past[r.sequence]);
      assert OnlyStops(u, past, b, r.sequence - 1, still);
    }
  }

  /** Where only stops lay between two states they still do after a recording. */
  lemma StopsContinue<S(!new)>(t: Timeline<S>, past: seq<S>, r: TraceRecord, u: Timeline<S>, past': seq<S>, b: nat,
                               q: nat, still: bool)
    requires Contiguous(t) && |past| == t.next && Contiguous(u) && |past'| == u.next && Continues(t, r, u)
    requires past' == past[..Position(t) + 1] + [past'[u.next - 1]]
    requires q <= Position(t) && OnlyStops(t, past, b, q, still)
    ensures q < u.next && past'[b] == past[b] && OnlyStops(u, past', b, q, still)
  {
    forall k | 0 <= k < |u.records| && b < u.records[k].sequence <= q ensures u.records[k].action == Stop {
      ContinuedRecords(t, r, u, k);
    }
  }

  /** A record kept by a recording accounts for what it did. */
  lemma KeptAccounts<S(!new)>(t: Timeline<S>, past: seq<S>, r: TraceRecord, u: Timeline<S>, past': seq<S>,
                              read: (S, string) -> nat, still: bool, i: nat, k: nat)
    requires Contiguous(t) && |past| == t.next && Contiguous(u) && |past'| == u.next && Continues(t, r, u)
    requires past' == past[..Position(t) + 1] + [past'[u.next - 1]]
    requires i < |u.records| && k < |t.records| && u.records[i] == t.records[k] && u.records[i].sequence <= Position(t)
    requires RecordAccounts(t, past, read, still, k)
    ensures RecordAccounts(u, past', read, still, i)
  {
    hide Journals, OnlyStops, Continues;
    var x := t.records[k];
    if x.action != Stop {
      var b: nat :| b < x.sequence && OnlyStops(t, past, b, x.sequence - 1, still) &&
          Journals(read, past[b], x.writes, past[x.sequence]);
      StopsContinue(t, past, r, u, past', b, x.sequence - 1, still);
    }
  }

  /** What a record and the journal it leaves account for, on top of what the journal held. */
  lemma NewestAccounts<S(!new)>(d: Debugging<S>, e: Engine<S>, r: TraceRecord, state: S, left: seq<Write>,
                                read: (S, string) -> nat, still: bool)
    requires Contiguous(d.timeline) && |d.past| == d.timeline.next && d.live.There?
    requires Possible(d, e, Recorded(r, state, left)) && StepsJournal(e, read)
    requires EventJournals(d, Recorded(r, state, left), read, still)
    requires Accounts(d.timeline, d.past, read, still, Position(d.timeline), d.live.journal,
        d.past[Position(d.timeline)])
    ensures r.action != Stop ==>
        left == [] && Accounts(d.timeline, d.past, read, still, Position(d.timeline), r.writes, state)
    ensures r.action == Stop ==>
      r.writes == [] && Accounts(d.timeline, d.past, read, still, Position(d.timeline), left, state)
      && (still ==> state == d.past[Position(d.timeline)])
  {
    var q, journal := Position(d.timeline), d.live.journal;
    var s, own := d.past[q], [];
    if r.action == Stop {
      own := left[|journal|..];
      assert left == journal + own;
    } else if r.action == External {
      own := r.writes[|journal|..];
      assert r.writes == journal + own;
    } else {
      own := StepJournals(e, read, s, journal, r, state);
    }
    hide Journals, Did, OnlyStops;
    var b: nat :| b <= q && OnlyStops(d.timeline, d.past, b, q, still) && Journals(read, d.past[b], journal, s);
    JournalsCompose(read, d.past[b], journal, s, own, state);
  }

  lemma RecordingAccounts<S(!new)>(d: Debugging<S>, e: Engine<S>, l: Limits<S>, r: TraceRecord, state: S,
                                   left: seq<Write>, read: (S, string) -> nat, still: bool)
    requires Lawful(e) && Window(d.timeline, d.past, e, l) && Possible(d, e, Recorded(r, state, left))
    requires StepsJournal(e, read) && EventJournals(d, Recorded(r, state, left), read, still)
    requires Accounted(d, read, still)
    ensures var u := Next(d, e, l, Recorded(r, state, left));
      Window(u.timeline, u.past, e, l) && Accounted(u, read, still)
  {
    assert Position(d.timeline) + 1 <= |d.past|;
    RecordingStores(d, e, l, r, state, left);
    NewestAccounts(d, e, r, state, left, read, still);
    hide Happened, Did, Anchored, Truncated, Stored, Evicted, Journals, Lawful, EventJournals, StepsJournal, Accounted,
        Accounts, Continues;
    var u := Next(d, e, l, Recorded(r, state, left));
    ContinuingAccounts(d, r, state, left, u.timeline, u.past, read, still);
  }

  lemma ContinuingAccounts<S(!new)>(d: Debugging<S>, r: TraceRecord, state: S, left: seq<Write>, u: Timeline<S>,
                                    past: seq<S>, read: (S, string) -> nat, still: bool)
    requires Contiguous(d.timeline) && |d.past| == d.timeline.next && Accounted(d, read, still)
    requires Contiguous(u) && |past| == u.next && Continues(d.timeline, r, u)
    requires past == d.past[..Position(d.timeline) + 1] + [state]
    requires r.action != Stop ==>
        left == [] && Accounts(d.timeline, d.past, read, still, Position(d.timeline), r.writes, state)
    requires r.action == Stop ==>
      r.writes == [] && Accounts(d.timeline, d.past, read, still, Position(d.timeline), left, state)
      && (still ==> state == d.past[Position(d.timeline)])
    ensures Accounted(Debugging(u, past, There(left)), read, still)
  {
    hide Journals, OnlyStops;
    var t, q := d.timeline, Position(d.timeline);
    var writes := if r.action == Stop then left else r.writes;
    var b: nat :| b <= q && OnlyStops(t, d.past, b, q, still) && Journals(read, d.past[b], writes, state);
    StopsContinue(t, d.past, r, u, past, b, q, still);
    assert Position(u) == r.sequence == q + 1 && past[q + 1] == state;
    forall i | 0 <= i < |u.records| ensures RecordAccounts(u, past, read, still, i) {
      ContinuedRecords(t, r, u, i);
      var k := i + u.dropped - t.dropped;
      if k < q - t.dropped { KeptAccounts(t, d.past, r, u, past, read, still, i, k); }
    }
    if r.action == Stop {
      StopExtends(t, r, u, past, b, q, still);
    } else {
      NothingAccounts(u, past, read, still, q + 1);
    }
  }

  /** A stop is one more state with only stops in between. */
  lemma StopExtends<S(!new)>(t: Timeline<S>, r: TraceRecord, u: Timeline<S>, past: seq<S>, b: nat, q: nat, still: bool)
    requires Contiguous(u) && |past| == u.next == q + 2 && Continues(t, r, u) && r.sequence == q + 1
    requires r.action == Stop && (still ==> past[q + 1] == past[q]) && OnlyStops(u, past, b, q, still)
    ensures OnlyStops(u, past, b, q + 1, still)
  {
    forall k | 0 <= k < |u.records| && b < u.records[k].sequence <= q + 1 ensures u.records[k].action == Stop {
      ContinuedRecords(t, r, u, k);
    }
  }

  // ----- whole sessions -----

  lemma {:induction false} AfterAccounts<S(!new)>(d: Debugging<S>, e: Engine<S>, l: Limits<S>, events: seq<Event<S>>,
                                                  read: (S, string) -> nat, still: bool)
    requires Lawful(e) && Window(d.timeline, d.past, e, l) && IsSession(d, e, l, events)
    requires StepsJournal(e, read) && SessionJournals(d, e, l, events, read, still) && Accounted(d, read, still)
    ensures Accounted(Session.After(d, e, l, events), read, still)
    decreases |events|
  {
    hide Accounted, Next, Window, Lawful, Possible, EventJournals, StepsJournal;
    if events != [] {
      NextKeepsWindow(d, e, l, events[0]);
      NextAccounts(d, e, l, events[0], read, still);
      AfterAccounts(Next(d, e, l, events[0]), e, l, events[1..], read, still);
    }
  }

  lemma NextAccounts<S(!new)>(d: Debugging<S>, e: Engine<S>, l: Limits<S>, event: Event<S>,
                              read: (S, string) -> nat, still: bool)
    requires Lawful(e) && Window(d.timeline, d.past, e, l) && Possible(d, e, event)
    requires StepsJournal(e, read) && EventJournals(d, event, read, still) && Accounted(d, read, still)
    ensures var u := Next(d, e, l, event); Window(u.timeline, u.past, e, l) && Accounted(u, read, still)
  {
    hide Accounted, Window, EventJournals, StepsJournal, Lawful, Possible, Travelled;
    NextKeepsWindow(d, e, l, event);
    match event
    case WentTo(target) => TravelAccounts(d, e, l, target, read, still);
    case Recorded(r, state, left) => RecordingAccounts(d, e, l, r, state, left, read, still);
  }

  lemma FreshAccounts<S(!new)>(state: S, bytes: nat, read: (S, string) -> nat, still: bool)
    ensures Contiguous(Fresh(state, bytes).timeline) && Accounted(Fresh(state, bytes), read, still)
  {
    var d := Fresh(state, bytes);
    NothingAccounts(d.timeline, d.past, read, still, 0);
  }

  /**
   If the engine's steps journal what they change, every retained record but a stop lists everything that changed
   since an earlier remembered state with only stops in between: its own writes, and those of the stops it follows.
   */
  lemma RecordsDrainStops<S(!new)>(state: S, bytes: nat, e: Engine<S>, l: Limits<S>, events: seq<Event<S>>,
                                   read: (S, string) -> nat, i: nat)
    requires Lawful(e) && l.Sound() && Window(Fresh(state, bytes).timeline, [state], e, l)
    requires IsSession(Fresh(state, bytes), e, l, events)
    requires StepsJournal(e, read) && SessionJournals(Fresh(state, bytes), e, l, events, read, false)
    requires i < |Session.After(Fresh(state, bytes), e, l, events).timeline.records|
    ensures var d := Session.After(Fresh(state, bytes), e, l, events);
      var r := d.timeline.records[i];
      if r.action == Stop then r.writes == []
      else Accounts(d.timeline, d.past, read, false, r.sequence - 1, r.writes, d.past[r.sequence])
  {
    FreshAccounts(state, bytes, read, false);
    AfterAccounts(Fresh(state, bytes), e, l, events, read, false);
    hide Session.After, IsSession, SessionJournals, Journals, OnlyStops, Window, StepsJournal;
    var d := Session.After(Fresh(state, bytes), e, l, events);
    assert RecordAccounts(d.timeline, d.past, read, false, i);
  }

  /** Without moved stops each record accounts for exactly its own transition. */
  lemma StillIsJournalled<S(!new)>(d: Debugging<S>, read: (S, string) -> nat)
    requires Contiguous(d.timeline) && |d.past| == d.timeline.next && Accounted(d, read, true)
    ensures Journalled(d.timeline, d.past, read)
  {
    forall i | 0 <= i < |d.timeline.records|
      ensures var r := d.timeline.records[i];
        Journals(read, d.past[r.sequence - 1], r.writes, d.past[r.sequence])
    {
      assert RecordAccounts(d.timeline, d.past, read, true, i);
    }
  }

  /**
   In every session without a moved stop, whose steps journal what they change, `state_diff` is a correct patch
   between any two states of the window, and `previous_write` names the last record to write a location.
   */
  lemma SessionDiffIsPatch<S(!new)>(state: S, bytes: nat, e: Engine<S>, l: Limits<S>, events: seq<Event<S>>,
                                    read: (S, string) -> nat, from: nat, to: nat, target: string)
    requires Lawful(e) && l.Sound() && Window(Fresh(state, bytes).timeline, [state], e, l)
    requires IsSession(Fresh(state, bytes), e, l, events)
    requires StepsJournal(e, read) && SessionJournals(Fresh(state, bytes), e, l, events, read, true)
    ensures var d := Session.After(Fresh(state, bytes), e, l, events); var t := d.timeline;
      && (Diff(t, from, to).Ok? <==> t.dropped <= from < t.next && t.dropped <= to < t.next)
      && (Diff(t, from, to).Ok? ==> Patch(read, Diff(t, from, to).value, d.past[from], d.past[to]))
      && KeptSince(t, d.past, read, target, |t.records|)
  {
    FreshAccounts(state, bytes, read, true);
    AfterAccounts(Fresh(state, bytes), e, l, events, read, true);
    hide Session.After, IsSession, SessionJournals, StepsJournal, Diff, Patch, KeptSince, Accounted, Happened, Anchored;
    var d := Session.After(Fresh(state, bytes), e, l, events);
    StillIsJournalled(d, read);
    DiffIsPatch(d.timeline, d.past, read, from, to);
    PreviousWriteIsLast(d.timeline, d.past, read, target, |d.timeline.records|);
  }
}
