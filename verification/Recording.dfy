/**
 Recording: truncate the abandoned future, append, evict by count and by
 memory. Every stage keeps the window invariant.
 */
module Recording {
  import opened Simulation
  import opened Timeline

  lemma TruncatedKeepsWindow<S(!new)>(t: Timeline<S>, past: seq<S>, e: Engine<S>, l: Limits<S>)
    requires Window(t, past, e, l)
    ensures var u := Truncated(t, l); var kept := past[..Position(t) + 1];
      && Window(u, kept, e, l) && u.dropped == t.dropped && u.next == Position(t) + 1
      && u.records == t.records[..Position(t) - t.dropped]
  {
    if t.cursor + 1 < t.next {
      var u := Truncated(t, l);
      RetainRecordsIsPrefix(t.records, t.dropped + 1, t.cursor);
      RetainCheckpointsIsPrefix(t.checkpoints, t.cursor);
      assert |u.checkpoints| > 0;
      TruncatedStates(t, u, past, e);
      TruncatedAnchors(t, u, l);
    } else {
      assert past[..t.next] == past;
    }
  }

  lemma TruncatedStates<S(!new)>(t: Timeline<S>, u: Timeline<S>, past: seq<S>, e: Engine<S>)
    requires Remembers(t, past, e) && t.cursor + 1 < t.next && u.cursor == t.cursor
    requires u.records == t.records[..t.cursor - t.dropped] && u.next == t.cursor + 1 && u.dropped == t.dropped
    requires 0 < |u.checkpoints| <= |t.checkpoints| && u.checkpoints == t.checkpoints[..|u.checkpoints|]
    requires forall i :: 0 <= i < |t.checkpoints| ==> (i < |u.checkpoints| <==> t.checkpoints[i].sequence <= t.cursor)
    ensures Remembers(u, past[..t.cursor + 1], e)
  {
    assert forall i :: 0 <= i < |u.checkpoints| ==> u.checkpoints[i] == t.checkpoints[i];
    assert forall i :: 0 <= i < |u.records| ==> u.records[i] == t.records[i];
  }

  lemma TruncatedAnchors<S>(t: Timeline<S>, u: Timeline<S>, l: Limits<S>)
    requires l.interval > 0 && Contiguous(t) && Anchored(t, l) && t.cursor + 1 < t.next
    requires u.records == t.records[..t.cursor - t.dropped]
    requires 0 < |u.checkpoints| <= |t.checkpoints| && u.checkpoints == t.checkpoints[..|u.checkpoints|]
    requires forall i :: 0 <= i < |t.checkpoints| ==> (i < |u.checkpoints| <==> t.checkpoints[i].sequence <= t.cursor)
    ensures Anchored(u, l)
  {
    forall i | 0 <= i < |u.records| && NeedsAnchor(u.records[i], l)
      ensures HasCheckpoint(u, u.records[i].sequence)
    {
      assert u.records[i] == t.records[i];
      assert HasCheckpoint(t, t.records[i].sequence);
      var j :| 0 <= j < |t.checkpoints| && t.checkpoints[j].sequence == t.records[i].sequence;
      assert u.checkpoints[j].sequence == u.records[i].sequence;
    }
  }

  lemma AppendedKeepsWindow<S(!new)>(t: Timeline<S>, past: seq<S>, e: Engine<S>, l: Limits<S>,
                                     r: TraceRecord, here: Checkpoint<S>)
    requires l.Sound() && Remembers(t, past, e) && Anchored(t, l)
    requires r.sequence == t.next && here.sequence == t.next
    requires Happened(e, past[t.next - 1], r, here.snapshot)
    ensures var u := Appended(t, r, here, l);
      && Contiguous(u) && Remembers(u, past + [here.snapshot], e) && Anchored(u, l)
      && u.records == t.records + [r] && u.dropped == t.dropped && u.cursor == t.next && u.next == t.next + 1
  {
    AppendedStates(t, past, e, l, r, here);
    AppendedAnchors(t, l, r, here);
  }

  lemma AppendedStates<S(!new)>(t: Timeline<S>, past: seq<S>, e: Engine<S>, l: Limits<S>, r: TraceRecord,
                         here: Checkpoint<S>)
    requires l.Sound() && Remembers(t, past, e)
    requires r.sequence == t.next && here.sequence == t.next
    requires Happened(e, past[t.next - 1], r, here.snapshot)
    ensures Remembers(Appended(t, r, here, l), past + [here.snapshot], e)
  {
    hide Happened;
    var u := Appended(t, r, here, l);
    assert forall i :: 0 <= i < |t.checkpoints| ==> u.checkpoints[i] == t.checkpoints[i];
    assert forall i :: 0 <= i < |t.records| ==> u.records[i] == t.records[i];
  }

  lemma AppendedAnchors<S>(t: Timeline<S>, l: Limits<S>, r: TraceRecord, here: Checkpoint<S>)
    requires l.Sound() && Contiguous(t) && Anchored(t, l) && r.sequence == t.next && here.sequence == t.next
    ensures Anchored(Appended(t, r, here, l), l)
  {
    var u := Appended(t, r, here, l);
    forall i | 0 <= i < |u.records| && NeedsAnchor(u.records[i], l)
      ensures HasCheckpoint(u, u.records[i].sequence)
    {
      if i < |t.records| {
        AnchorOf(t, l, i);
        var j :| 0 <= j < |t.checkpoints| && t.checkpoints[j].sequence == t.records[i].sequence;
        assert u.checkpoints[j].sequence == u.records[i].sequence;
      } else {
        assert u.checkpoints[|t.checkpoints|].sequence == u.records[i].sequence;
      }
    }
  }

  lemma BoundedKeepsWindow<S(!new)>(t: Timeline<S>, past: seq<S>, e: Engine<S>, l: Limits<S>, here: Checkpoint<S>)
    requires l.Sound() && Remembers(t, past, e) && Anchored(t, l)
    requires |t.records| <= l.maxEvents + 1 && t.cursor == t.next - 1
    ensures var u := Bounded(t, here, l);
      && Window(u, past, e, l) && Forgets(t, u) && (|t.records| <= l.maxEvents ==> u == t)
  {
    ForgetsNothing(t);
    assert Contiguous(t);
    hide Remembers, Anchored, Happened, Forgets;
    if |t.records| > l.maxEvents {
      var k := EvictionFindsAnAnchor(t, past, e, l);
      DropThroughKeepsWindow(t, past, e, l, k);
      ShorterWindow(t, past, e, l, k);
    }
  }

  /** One turn of the eviction loop: give up the oldest checkpoint, first adding a second one if it is the only one. */
  function EvictOnce<S>(t: Timeline<S>, here: Checkpoint<S>, l: Limits<S>): Timeline<S>
    requires t.checkpoints != []
  {
    if |t.checkpoints| == 1 then Recomputed(t.(checkpoints := t.checkpoints + [here]), l)
    else Recomputed(DropThrough(t, t.checkpoints[1].sequence), l)
  }

  predicate Irreducible<S>(t: Timeline<S>) { |t.checkpoints| == 1 && t.records == [] }

  lemma EvictOnceShrinks<S>(t: Timeline<S>, here: Checkpoint<S>, l: Limits<S>)
    requires Contiguous(t) && here.sequence == t.cursor == t.next - 1 && !Irreducible(t)
    ensures var u := EvictOnce(t, here, l);
      && Contiguous(u) && u.next == t.next && u.cursor == t.cursor
      && (|u.records| < |t.records| || (|u.records| == |t.records| && |t.checkpoints| == 1 < |u.checkpoints|))
  {
    if |t.checkpoints| == 1 {
      var u := EvictOnce(t, here, l);
      assert u.checkpoints[0] == t.checkpoints[0] && u.checkpoints[1] == here;
    } else {
      assert t.checkpoints[1].sequence < t.next;
      DropThroughShape(t, 1);
      DroppedContiguous(t, EvictOnce(t, here, l), 1);
    }
  }

  /** Eviction by memory, at the state just recorded. Terminates whatever the snapshots weigh. */
  function Evicted<S(!new)>(t: Timeline<S>, here: Checkpoint<S>, l: Limits<S>): (u: Timeline<S>)
    requires Contiguous(t) && here.sequence == t.cursor == t.next - 1
    ensures u.memory <= l.maxMemory || Irreducible(u)
    decreases |t.records|, if |t.checkpoints| == 1 then 1 else 0
  {
    if t.memory <= l.maxMemory || Irreducible(t) then t
    else
      EvictOnceShrinks(t, here, l);
      Evicted(EvictOnce(t, here, l), here, l)
  }

  /** `u` is `t` with a prefix of its records forgotten. */
  ghost predicate Forgets<S>(t: Timeline<S>, u: Timeline<S>) {
    && t.dropped <= u.dropped <= t.dropped + |t.records|
    && u.records == t.records[u.dropped - t.dropped..]
    && u.cursor == t.cursor && u.next == t.next
  }

  lemma ForgetsNothing<S>(t: Timeline<S>)
    ensures Forgets(t, t)
  {}

  lemma ForgetsTransitive<S>(t: Timeline<S>, u: Timeline<S>, v: Timeline<S>)
    requires Forgets(t, u) && Forgets(u, v)
    ensures Forgets(t, v)
  {
    assert v.records == t.records[v.dropped - t.dropped..];
  }

  lemma {:induction false} EvictedKeepsWindow<S(!new)>(t: Timeline<S>, past: seq<S>, e: Engine<S>, l: Limits<S>,
                          here: Checkpoint<S>)
    requires Window(t, past, e, l)
    requires here.sequence == t.cursor == t.next - 1 && here.snapshot == past[t.cursor]
    ensures var u := Evicted(t, here, l);
      Window(u, past, e, l) && Forgets(t, u) && (t.memory <= l.maxMemory ==> u == t)
    decreases |t.records|, if |t.checkpoints| == 1 then 1 else 0
  {
    ForgetsNothing(t);
    assert Contiguous(t);
    hide Window, Contiguous, Forgets, EvictOnce, Irreducible, Happened, Recomputed;
    if t.memory > l.maxMemory && !Irreducible(t) {
      EvictOnceShrinks(t, here, l);
      EvictOnceKeepsWindow(t, past, e, l, here);
      var v := EvictOnce(t, here, l);
      EvictedKeepsWindow(v, past, e, l, here);
      var u := Evicted(v, here, l);
      ForgetsTransitive(t, v, u);
      assert Evicted(t, here, l) == u;
    }
  }

  lemma EvictOnceKeepsWindow<S(!new)>(t: Timeline<S>, past: seq<S>, e: Engine<S>, l: Limits<S>, here: Checkpoint<S>)
    requires Window(t, past, e, l) && !Irreducible(t)
    requires here.sequence == t.cursor == t.next - 1 && here.snapshot == past[t.cursor]
    ensures Window(EvictOnce(t, here, l), past, e, l) && Forgets(t, EvictOnce(t, here, l))
  {
    if |t.checkpoints| == 1 {
      AddedAnchor(t, EvictOnce(t, here, l), past, e, l, here);
    } else {
      EvictionKeepsWindow(t, past, e, l);
    }
  }

  lemma EvictionKeepsWindow<S(!new)>(t: Timeline<S>, past: seq<S>, e: Engine<S>, l: Limits<S>)
    requires Window(t, past, e, l) && |t.checkpoints| > 1 && t.cursor == t.next - 1
    ensures var v := Recomputed(DropThrough(t, t.checkpoints[1].sequence), l);
      Window(v, past, e, l) && Forgets(t, v)
  {
    assert Contiguous(t) && t.checkpoints[1].sequence < t.next;
    hide Remembers, Anchored, Happened, Contiguous, Forgets, Recomputed, DropThrough;
    DropThroughKeepsWindow(t, past, e, l, 1);
    ShorterWindow(t, past, e, l, 1);
  }

  lemma ShorterWindow<S(!new)>(t: Timeline<S>, past: seq<S>, e: Engine<S>, l: Limits<S>, k: nat)
    requires l.Sound() && Contiguous(t) && |t.records| <= l.maxEvents + 1
    requires 0 < k < |t.checkpoints| && t.checkpoints[k].sequence <= t.cursor == t.next - 1
    requires var u := DropThrough(t, t.checkpoints[k].sequence); Remembers(u, past, e) && Anchored(u, l)
    ensures var v := Recomputed(DropThrough(t, t.checkpoints[k].sequence), l);
      Window(v, past, e, l) && Forgets(t, v)
  {
    DropThroughShape(t, k);
    var u := DropThrough(t, t.checkpoints[k].sequence);
    SameWindow(u, Recomputed(u, l), past, e, l);
  }

  /** The memory estimate plays no part in the window. */
  lemma SameWindow<S(!new)>(u: Timeline<S>, v: Timeline<S>, past: seq<S>, e: Engine<S>, l: Limits<S>)
    requires l.interval > 0 && Remembers(u, past, e) && Anchored(u, l) && v == u.(memory := v.memory)
    ensures Remembers(v, past, e) && Anchored(v, l)
  {
    assert forall q :: HasCheckpoint(u, q) ==> HasCheckpoint(v, q);
  }

  lemma AddedAnchor<S(!new)>(t: Timeline<S>, v: Timeline<S>, past: seq<S>, e: Engine<S>, l: Limits<S>,
                      here: Checkpoint<S>)
    requires Window(t, past, e, l) && |t.checkpoints| == 1 && t.records != []
    requires here.sequence == t.cursor == t.next - 1 && here.snapshot == past[t.cursor]
    requires v == t.(checkpoints := t.checkpoints + [here], memory := v.memory)
    ensures Window(v, past, e, l)
  {
    assert v.checkpoints[0] == t.checkpoints[0] && v.checkpoints[1] == here;
    forall i | 0 <= i < |v.records| ensures !NeedsAnchor(v.records[i], l) {
      if NeedsAnchor(t.records[i], l) {
        assert false;
      }
    }
  }

  // ----- one whole recording -----

  /** The state after truncating, appending and evicting by count. */
  function Stored<S>(t: Timeline<S>, r: TraceRecord, here: Checkpoint<S>, l: Limits<S>): Timeline<S>
    requires l.Sound() && Truncated(t, l).checkpoints != []
  {
    Bounded(Appended(Truncated(t, l), r, here, l), here, l)
  }

  /** `u` holds the records of `t` up to its position, then `r`, less a forgotten prefix; `r` is its newest. */
  ghost predicate Continues<S>(t: Timeline<S>, r: TraceRecord, u: Timeline<S>) {
    && t.next > 0 && t.dropped <= Position(t) <= t.dropped + |t.records|
    && r.sequence == u.cursor == Position(t) + 1 == u.next - 1
    && t.dropped <= u.dropped <= r.sequence
    && u.records == (t.records[..Position(t) - t.dropped] + [r])[u.dropped - t.dropped..]
  }

  lemma ContinuesThenForgets<S>(t: Timeline<S>, r: TraceRecord, s: Timeline<S>, u: Timeline<S>)
    requires Continues(t, r, s) && Forgets(s, u)
    ensures Continues(t, r, u)
  {
    var all := t.records[..Position(t) - t.dropped] + [r];
    assert u.records == all[u.dropped - t.dropped..];
  }

  lemma AppendedContinues<S(!new)>(t: Timeline<S>, a: Timeline<S>, b: Timeline<S>, r: TraceRecord)
    requires t.next > 0 && t.dropped <= Position(t) <= t.dropped + |t.records| && r.sequence == Position(t) + 1
    requires a.dropped == t.dropped && a.next == Position(t) + 1 && a.records == t.records[..Position(t) - t.dropped]
    requires b.records == a.records + [r] && b.dropped == a.dropped && b.cursor == a.next && b.next == a.next + 1
    ensures Continues(t, r, b)
  {}

  lemma StoredKeepsWindow<S(!new)>(t: Timeline<S>, past: seq<S>, e: Engine<S>, l: Limits<S>,
                                   r: TraceRecord, here: Checkpoint<S>, past': seq<S>) returns (s: Timeline<S>)
    requires Window(t, past, e, l)
    requires r.sequence == here.sequence == Position(t) + 1
    requires Happened(e, past[Position(t)], r, here.snapshot)
    requires past' == past[..Position(t) + 1] + [here.snapshot]
    ensures Truncated(t, l).checkpoints != [] && s == Stored(t, r, here, l)
    ensures Window(s, past', e, l) && Contiguous(s) && Continues(t, r, s)
    ensures Position(t) - t.dropped < l.maxEvents ==> s.dropped == t.dropped
  {
    TruncatedKeepsWindow(t, past, e, l);
    var kept := past[..Position(t) + 1];
    var a := Truncated(t, l);
    assert Contiguous(a) && |past| == t.next;
    hide Remembers, Anchored, Happened, Truncated, Appended, Bounded, Continues;
    AppendedKeepsWindow(a, kept, e, l, r, here);
    var b := Appended(a, r, here, l);
    AppendedContinues(t, a, b, r);
    BoundedKeepsWindow(b, past', e, l, here);
    s := Bounded(b, here, l);
    ContinuesThenForgets(t, r, b, s);
  }

  /**
   A recording keeps the window and extends the remembered past by one state.
   Only the abandoned future and a prefix of the oldest records are gone, the
   prefix only when a limit was exceeded.
   */
  lemma RecordKeepsWindow<S(!new)>(t: Timeline<S>, past: seq<S>, e: Engine<S>, l: Limits<S>,
                                   r: TraceRecord, here: Checkpoint<S>, past': seq<S>) returns (s: Timeline<S>,
                                     u: Timeline<S>)
    requires Window(t, past, e, l)
    requires r.sequence == here.sequence == Position(t) + 1
    requires Happened(e, past[Position(t)], r, here.snapshot)
    requires past' == past[..Position(t) + 1] + [here.snapshot]
    ensures Truncated(t, l).checkpoints != [] && s == Stored(t, r, here, l)
    ensures Contiguous(s) && here.sequence == s.cursor == s.next - 1
    ensures u == Evicted(s, here, l) && Window(u, past', e, l) && Continues(t, r, u)
    ensures u.memory <= l.maxMemory || Irreducible(u)
    ensures Position(t) - t.dropped < l.maxEvents && s.memory <= l.maxMemory ==> u.dropped == t.dropped
  {
    assert |past| == t.next;
    s := StoredKeepsWindow(t, past, e, l, r, here, past');
    assert here.sequence == s.cursor == s.next - 1;
    hide Window, Contiguous, Continues, Stored, Truncated, Happened, Irreducible;
    EvictedKeepsWindow(s, past', e, l, here);
    u := Evicted(s, here, l);
    ContinuesThenForgets(t, r, s, u);
  }

  /** Moving the cursor within or beyond the window keeps the window. */
  lemma CursorMoves<S(!new)>(t: Timeline<S>, past: seq<S>, e: Engine<S>, l: Limits<S>, target: nat)
    requires Window(t, past, e, l)
    ensures target >= t.dropped ==> Window(t.(cursor := target), past, e, l)
  {
    assert forall q :: HasCheckpoint(t, q) ==> HasCheckpoint(t.(cursor := target), q);
  }

  /** Replacing the newest checkpoint by one of the same state loses no anchor. */
  lemma Recheckpointed<S(!new)>(t: Timeline<S>, u: Timeline<S>, past: seq<S>, e: Engine<S>, l: Limits<S>)
    requires Window(t, past, e, l) && t.cursor == t.next - 1
    requires u == t.(checkpoints := u.checkpoints, memory := u.memory) && u.checkpoints != []
    requires var n := |u.checkpoints| - 1;
      && u.checkpoints[n].sequence == t.cursor && u.checkpoints[n].snapshot == past[t.cursor]
      && u.checkpoints[..n] == if t.checkpoints[|t.checkpoints| - 1].sequence == t.cursor
                               then t.checkpoints[..|t.checkpoints| - 1] else t.checkpoints
    ensures Window(u, past, e, l) && HasCheckpoint(u, t.cursor)
    ensures forall q :: HasCheckpoint(t, q) ==> HasCheckpoint(u, q)
  {
    RecheckpointedKeeps(t, u);
    assert Anchored(u, l) by {
      hide Contiguous, HasCheckpoint, Happened;
      forall i | 0 <= i < |u.records| ensures NeedsAnchor(u.records[i], l) ==> HasCheckpoint(u, u.records[i].sequence) {
        AnchorOf(t, l, i);
      }
    }
    assert Remembers(u, past, e) by { RecheckpointedStates(t, u, past, e); }
  }

  lemma RecheckpointedStates<S(!new)>(t: Timeline<S>, u: Timeline<S>, past: seq<S>, e: Engine<S>)
    requires Remembers(t, past, e) && t.cursor == t.next - 1
    requires u == t.(checkpoints := u.checkpoints, memory := u.memory) && u.checkpoints != []
    requires var n := |u.checkpoints| - 1;
      && u.checkpoints[n].sequence == t.cursor && u.checkpoints[n].snapshot == past[t.cursor]
      && u.checkpoints[..n] == if t.checkpoints[|t.checkpoints| - 1].sequence == t.cursor
                               then t.checkpoints[..|t.checkpoints| - 1] else t.checkpoints
    ensures Remembers(u, past, e)
  {
    hide Happened;
    var n := |u.checkpoints| - 1;
    var c := u.checkpoints[n];
    assert u.checkpoints == u.checkpoints[..n] + [c];
    if t.checkpoints[|t.checkpoints| - 1].sequence == t.cursor {
      assert u.checkpoints == t.checkpoints[|t.checkpoints| - 1 := c];
    } else {
      assert u.checkpoints == t.checkpoints + [c];
    }
  }

  lemma RecheckpointedKeeps<S>(t: Timeline<S>, u: Timeline<S>)
    requires Contiguous(t) && t.cursor == t.next - 1 && u.checkpoints != []
    requires var n := |u.checkpoints| - 1;
      && u.checkpoints[n].sequence == t.cursor
      && u.checkpoints[..n] == if t.checkpoints[|t.checkpoints| - 1].sequence == t.cursor
                               then t.checkpoints[..|t.checkpoints| - 1] else t.checkpoints
    ensures HasCheckpoint(u, t.cursor)
    ensures forall q :: HasCheckpoint(t, q) ==> HasCheckpoint(u, q)
  {
    var n := |u.checkpoints| - 1;
    assert u.checkpoints[n].sequence == t.cursor;
    forall q | HasCheckpoint(t, q) ensures HasCheckpoint(u, q) {
      var i :| 0 <= i < |t.checkpoints| && t.checkpoints[i].sequence == q;
      assert i < n ==> u.checkpoints[..n][i] == t.checkpoints[i];
    }
  }
}
