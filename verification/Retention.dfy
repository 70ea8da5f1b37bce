/** Recording forgets no more than its limits require, keeps no checkpoint without need, and knows what it weighs. */
module Retention {
  import opened Prelude
  import opened Simulation
  import opened Timeline
  import opened Recording

  // ----- eviction by count -----

  lemma {:induction false} BaselineIsFirst<S>(cs: seq<Checkpoint<S>>, first: nat, front: nat, i: nat)
    requires forall i, j :: 0 <= i < j < |cs| ==> cs[i].sequence < cs[j].sequence
    requires i < |cs| && cs[i].sequence >= first && cs[i].sequence > front
    ensures Baseline(cs, first, front).Some? && Baseline(cs, first, front).value <= cs[i].sequence
  {
    if !(cs[0].sequence >= first && cs[0].sequence > front) {
      assert cs[1..][i - 1] == cs[i];
      BaselineIsFirst(cs[1..], first, front, i - 1);
    }
  }

  /**
   What recording `r` leaves of the history `t`: no checkpoint goes that leaves few enough records, fewer than an
   interval of them go too many, and the only new checkpoint is one that `r` needs.
   */
  ghost predicate SparesByCount<S>(t: Timeline<S>, r: TraceRecord, s: Timeline<S>, l: Limits<S>)
    requires t.next > 0 && l.interval > 0
  {
    && (forall q: nat :: HasCheckpoint(t, q) && q <= Position(t) && q + l.maxEvents > r.sequence ==> s.dropped <= q)
    && (s.dropped == t.dropped || |s.records| + l.interval >= l.maxEvents)
    && (forall q: nat :: HasCheckpoint(s, q) <==>
          s.dropped <= q && ((HasCheckpoint(t, q) && q <= Position(t)) || (q == r.sequence && NeedsAnchor(r, l))))
  }

  lemma TruncatedCheckpoints<S>(t: Timeline<S>, l: Limits<S>)
    requires Contiguous(t)
    ensures forall q: nat :: HasCheckpoint(Truncated(t, l), q) <==> HasCheckpoint(t, q) && q <= Position(t)
  {
    if t.cursor + 1 < t.next {
      RetainCheckpointsIsPrefix(t.checkpoints, t.cursor);
      var cs := Truncated(t, l).checkpoints;
      forall q: nat ensures HasCheckpoint(Truncated(t, l), q) <==> HasCheckpoint(t, q) && q <= Position(t) {
        if HasCheckpoint(t, q) && q <= Position(t) {
          var i :| 0 <= i < |t.checkpoints| && t.checkpoints[i].sequence == q;
          assert cs[i].sequence == q;
        }
      }
    }
  }

  lemma AppendedCheckpoints<S>(t: Timeline<S>, r: TraceRecord, here: Checkpoint<S>, l: Limits<S>)
    requires l.interval > 0 && r.sequence == here.sequence == t.next
    ensures forall q: nat :: HasCheckpoint(Appended(t, r, here, l), q) <==>
      HasCheckpoint(t, q) || (q == r.sequence && NeedsAnchor(r, l))
  {
    var u := Appended(t, r, here, l);
    forall q: nat | HasCheckpoint(t, q) ensures HasCheckpoint(u, q) {
      var i :| 0 <= i < |t.checkpoints| && t.checkpoints[i].sequence == q;
      assert u.checkpoints[i] == t.checkpoints[i];
    }
    if NeedsAnchor(r, l) { assert u.checkpoints[|t.checkpoints|].sequence == r.sequence; }
  }

  /** `u` has the checkpoints of `t` from its oldest state on. */
  ghost predicate KeepsFrom<S>(t: Timeline<S>, u: Timeline<S>) {
    forall q: nat :: HasCheckpoint(u, q) <==> HasCheckpoint(t, q) && u.dropped <= q
  }

  lemma DroppedCheckpoints<S>(t: Timeline<S>, k: nat)
    requires Contiguous(t) && k < |t.checkpoints| && t.checkpoints[k].sequence <= t.cursor
    requires t.checkpoints[k].sequence < t.next
    ensures var b := t.checkpoints[k].sequence; var u := DropThrough(t, b);
      u.dropped == b && |u.records| == t.next - 1 - b && KeepsFrom(t, u)
  {
    var b := t.checkpoints[k].sequence;
    var u := DropThrough(t, b);
    DropThroughShape(t, k);
    forall q: nat | HasCheckpoint(u, q) ensures HasCheckpoint(t, q) && b <= q {
      var i :| 0 <= i < |u.checkpoints| && u.checkpoints[i].sequence == q;
      assert t.checkpoints[i + k].sequence == q;
    }
    forall q: nat | HasCheckpoint(t, q) && b <= q ensures HasCheckpoint(u, q) {
      var i :| 0 <= i < |t.checkpoints| && t.checkpoints[i].sequence == q;
      assert i >= k && u.checkpoints[i - k].sequence == q;
    }
  }

  /** The checkpoint count eviction drops through is the first that leaves few enough records, and soon enough. */
  lemma BaselineIsSoon<S(!new)>(t: Timeline<S>, past: seq<S>, e: Engine<S>, l: Limits<S>, b: nat)
    requires l.Sound() && Remembers(t, past, e) && Anchored(t, l) && |t.records| == l.maxEvents + 1
    requires Baseline(t.checkpoints, t.records[1].sequence, t.checkpoints[0].sequence) == Some(b)
    ensures forall q: nat :: HasCheckpoint(t, q) && q > t.dropped + 1 ==> b <= q
    ensures b <= t.dropped + 1 + l.interval
  {
    var first, front := t.records[1].sequence, t.checkpoints[0].sequence;
    forall q: nat | HasCheckpoint(t, q) && q > t.dropped + 1 ensures b <= q {
      var i :| 0 <= i < |t.checkpoints| && t.checkpoints[i].sequence == q;
      BaselineIsFirst(t.checkpoints, first, front, i);
    }
    var m := MultipleInWindow(first, l.interval);
    AnchorOf(t, l, m - t.dropped - 1);
  }

  lemma BoundedSpares<S(!new)>(t: Timeline<S>, past: seq<S>, e: Engine<S>, l: Limits<S>, here: Checkpoint<S>)
    requires l.Sound() && Remembers(t, past, e) && Anchored(t, l)
    requires |t.records| <= l.maxEvents + 1 && t.cursor == t.next - 1
    ensures var s := Bounded(t, here, l);
      && (forall q: nat :: HasCheckpoint(t, q) && q + l.maxEvents > t.cursor ==> s.dropped <= q)
      && (s.dropped == t.dropped || |s.records| + l.interval >= l.maxEvents)
      && KeepsFrom(t, s)
  {
    assert Contiguous(t);
    FrontIsOldest(t);
    if |t.records| > l.maxEvents {
      var k := EvictionFindsAnAnchor(t, past, e, l);
      BaselineIsSoon(t, past, e, l, t.checkpoints[k].sequence);
      DroppedCheckpoints(t, k);
      var u := DropThrough(t, t.checkpoints[k].sequence);
      SameCheckpoints(t, u, Recomputed(u, l));
      hide Baseline, DropThrough, Recomputed, Contiguous, HasCheckpoint, KeepsFrom, Remembers, Anchored;
    }
  }

  lemma SameCheckpoints<S>(t: Timeline<S>, u: Timeline<S>, v: Timeline<S>)
    requires v == u.(memory := v.memory) && KeepsFrom(t, u)
    ensures KeepsFrom(t, v)
  {
    assert forall q: nat :: HasCheckpoint(u, q) <==> HasCheckpoint(v, q);
  }

  lemma FrontIsOldest<S>(t: Timeline<S>)
    requires Contiguous(t)
    ensures forall q: nat :: HasCheckpoint(t, q) ==> t.dropped <= q
  {
    forall i | 0 <= i < |t.checkpoints| ensures t.dropped <= t.checkpoints[i].sequence {
      if i > 0 { assert t.checkpoints[0].sequence < t.checkpoints[i].sequence; }
    }
  }

  lemma StoredSpares<S(!new)>(t: Timeline<S>, past: seq<S>, e: Engine<S>, l: Limits<S>, r: TraceRecord,
                              here: Checkpoint<S>)
    requires Window(t, past, e, l) && r.sequence == here.sequence == Position(t) + 1
    requires Happened(e, past[Position(t)], r, here.snapshot) && Truncated(t, l).checkpoints != []
    ensures SparesByCount(t, r, Stored(t, r, here, l), l)
  {
    TruncatedKeepsWindow(t, past, e, l);
    var a := Truncated(t, l);
    assert Contiguous(a) && |past| == t.next && Contiguous(t);
    var kept := past[..Position(t) + 1];
    hide Remembers, Anchored, Happened, Truncated, Appended, Bounded, HasCheckpoint, Contiguous,
        KeepsFrom;
    TruncatedCheckpoints(t, l);
    FrontIsOldest(a);
    AppendedKeepsWindow(a, kept, e, l, r, here);
    AppendedCheckpoints(a, r, here, l);
    BoundedSpares(Appended(a, r, here, l), kept + [here.snapshot], e, l, here);
    AllSpared(t, a, Appended(a, r, here, l), r, Stored(t, r, here, l), l);
  }

  lemma AllSpared<S>(t: Timeline<S>, a: Timeline<S>, b: Timeline<S>, r: TraceRecord, s: Timeline<S>, l: Limits<S>)
    requires t.next > 0 && l.interval > 0 && r.sequence == Position(t) + 1 == b.cursor
    requires a.dropped == t.dropped == b.dropped && t.dropped <= Position(t)
    requires forall q: nat :: HasCheckpoint(a, q) <==> HasCheckpoint(t, q) && q <= Position(t)
    requires forall q: nat :: HasCheckpoint(b, q) <==> HasCheckpoint(a, q) || (q == r.sequence && NeedsAnchor(r, l))
    requires forall q: nat :: HasCheckpoint(b, q) && q + l.maxEvents > b.cursor ==> s.dropped <= q
    requires s.dropped == b.dropped || |s.records| + l.interval >= l.maxEvents
    requires KeepsFrom(b, s)
    ensures SparesByCount(t, r, s, l)
  {
    hide HasCheckpoint, NeedsAnchor;
  }

  // ----- eviction by memory -----

  /** What the history weighs when it begins at checkpoint `k`. */
  function WeightFrom<S>(t: Timeline<S>, k: nat, l: Limits<S>): nat
    requires k < |t.checkpoints|
  {
    Recomputed(DropThrough(t, t.checkpoints[k].sequence), l).memory
  }

  /** Nothing goes while the history fits, nor a checkpoint with which it would; all others stay. */
  ghost predicate SparesByMemory<S>(s: Timeline<S>, u: Timeline<S>, l: Limits<S>) {
    && (u.dropped > s.dropped ==> s.memory > l.maxMemory)
    && (forall k: nat :: 0 < k < |s.checkpoints| && s.checkpoints[k].sequence < u.dropped ==>
          WeightFrom(s, k, l) > l.maxMemory)
    && (forall q: nat :: HasCheckpoint(s, q) && u.dropped <= q ==> HasCheckpoint(u, q))
    && (forall q: nat :: HasCheckpoint(u, q) ==> HasCheckpoint(s, q) || q == u.next - 1)
  }

  lemma {:induction false} EvictedSpares<S(!new)>(t: Timeline<S>, here: Checkpoint<S>, l: Limits<S>)
    requires Contiguous(t) && here.sequence == t.cursor == t.next - 1
    ensures SparesByMemory(t, Evicted(t, here, l), l)
    decreases |t.records|, if |t.checkpoints| == 1 then 1 else 0
  {
    if t.memory > l.maxMemory && !Irreducible(t) {
      var v := EvictOnce(t, here, l);
      EvictOnceShrinks(t, here, l);
      EvictedSpares(v, here, l);
      hide Evicted, Contiguous, Recomputed, DropThrough;
      assert |t.checkpoints| > 1 ==> t.checkpoints[1].sequence < t.next;
      if |t.checkpoints| == 1 { AddedSpares(t, v, here, l); } else { EvictedOneSpares(t, v, here, l); }
    }
  }

  lemma AddedSpares<S(!new)>(t: Timeline<S>, v: Timeline<S>, here: Checkpoint<S>, l: Limits<S>)
    requires Contiguous(t) && Contiguous(v) && here.sequence == t.cursor == t.next - 1 && t.memory > l.maxMemory
    requires v == t.(checkpoints := t.checkpoints + [here], memory := v.memory) && |t.checkpoints| == 1
    requires !Irreducible(t) && v == EvictOnce(t, here, l) && SparesByMemory(v, Evicted(v, here, l), l)
    ensures SparesByMemory(t, Evicted(t, here, l), l)
  {
    EvictedNext(v, here, l);
    var u := Evicted(v, here, l);
    forall q: nat ensures HasCheckpoint(v, q) <==> HasCheckpoint(t, q) || q == t.next - 1 {
      assert v.checkpoints[0] == t.checkpoints[0] && v.checkpoints[1] == here;
    }
  }

  lemma {:induction false} EvictedNext<S(!new)>(t: Timeline<S>, here: Checkpoint<S>, l: Limits<S>)
    requires Contiguous(t) && here.sequence == t.cursor == t.next - 1
    ensures Evicted(t, here, l).next == t.next && Evicted(t, here, l).dropped >= t.dropped
    decreases |t.records|, if |t.checkpoints| == 1 then 1 else 0
  {
    if t.memory > l.maxMemory && !Irreducible(t) {
      EvictOnceShrinks(t, here, l);
      OnceDropsForward(t, here, l);
      EvictedNext(EvictOnce(t, here, l), here, l);
    }
  }

  lemma OnceDropsForward<S>(t: Timeline<S>, here: Checkpoint<S>, l: Limits<S>)
    requires t.checkpoints != []
    ensures EvictOnce(t, here, l).dropped >= t.dropped
  {}

  lemma EvictedOneIs<S>(t: Timeline<S>, v: Timeline<S>, here: Checkpoint<S>, l: Limits<S>)
    requires Contiguous(t) && |t.checkpoints| > 1 && t.checkpoints[1].sequence < t.next && t.cursor == t.next - 1
    requires v == EvictOnce(t, here, l)
    ensures v == Recomputed(DropThrough(t, t.checkpoints[1].sequence), l) && v.memory == WeightFrom(t, 1, l)
    ensures v.dropped == t.checkpoints[1].sequence && |v.checkpoints| == |t.checkpoints| - 1 && v.next == t.next
    ensures KeepsFrom(t, v) && v.cursor == t.cursor
  {
    hide Contiguous;
    DroppedCheckpoints(t, 1);
    DropThroughShape(t, 1);
    SameCheckpoints(t, DropThrough(t, t.checkpoints[1].sequence), v);
  }

  lemma EvictedOneSpares<S(!new)>(t: Timeline<S>, v: Timeline<S>, here: Checkpoint<S>, l: Limits<S>)
    requires Contiguous(t) && Contiguous(v) && here.sequence == t.cursor == t.next - 1 && t.memory > l.maxMemory
    requires |t.checkpoints| > 1 && v == EvictOnce(t, here, l) && !Irreducible(t)
    requires t.checkpoints[1].sequence < t.next
    requires SparesByMemory(v, Evicted(v, here, l), l)
    ensures SparesByMemory(t, Evicted(t, here, l), l)
  {
    EvictedOneIs(t, v, here, l);
    EvictedNext(v, here, l);
    var u := Evicted(v, here, l);
    assert Evicted(t, here, l) == u;
    hide Evicted, EvictOnce, DropThrough, Recomputed, Irreducible, HasCheckpoint, Contiguous, WeightFrom;
    forall k: nat | 0 < k < |t.checkpoints| && t.checkpoints[k].sequence < u.dropped
      ensures WeightFrom(t, k, l) > l.maxMemory
    {
      if k > 1 { SameWeight(t, v, k, l); }
    }
  }

  lemma SameWeight<S>(t: Timeline<S>, v: Timeline<S>, k: nat, l: Limits<S>)
    requires Contiguous(t) && Contiguous(v) && 1 < k < |t.checkpoints| && t.cursor == t.next - 1
    requires v == Recomputed(DropThrough(t, t.checkpoints[1].sequence), l)
    ensures k - 1 < |v.checkpoints| && v.checkpoints[k - 1] == t.checkpoints[k] &&
        WeightFrom(v, k - 1, l) == WeightFrom(t, k, l)
  {
    assert t.checkpoints[1].sequence < t.next && t.checkpoints[k].sequence < t.next;
    DropThroughShape(t, 1);
    DropThroughShape(t, k);
    DropThroughShape(v, k - 1);
    var b, c := t.checkpoints[1].sequence, t.checkpoints[k].sequence;
    assert t.records[b - t.dropped..][c - b..] == t.records[c - t.dropped..];
    assert t.checkpoints[1..][k - 1..] == t.checkpoints[k..];
  }

  // ----- the memory estimate -----

  /** What the records and checkpoints weigh. */
  function Weight<S>(t: Timeline<S>, l: Limits<S>): nat { RecordsBytes(t.records, l) + CheckpointsBytes(t.checkpoints) }

  /** The estimate is the weight, with the sources' once it has been computed anew. */
  predicate Weighed<S>(t: Timeline<S>, l: Limits<S>) {
    t.memory == Saturating(Weight(t, l)) || t.memory == Saturating(Weight(t, l) + l.sourceBytes)
  }

  lemma {:induction false} RecordsAppend<S>(rs: seq<TraceRecord>, r: TraceRecord, l: Limits<S>)
    ensures RecordsBytes(rs + [r], l) == RecordsBytes(rs, l) + l.recordBytes(r)
  {
    if rs != [] {
      assert (rs + [r])[1..] == rs[1..] + [r];
      RecordsAppend(rs[1..], r, l);
    } else {
      assert [r][1..] == [] && rs + [r] == [r];
    }
  }

  lemma {:induction false} CheckpointsAppend<S>(cs: seq<Checkpoint<S>>, c: Checkpoint<S>)
    ensures CheckpointsBytes(cs + [c]) == CheckpointsBytes(cs) + c.bytes
  {
    if cs != [] {
      assert (cs + [c])[1..] == cs[1..] + [c];
      CheckpointsAppend(cs[1..], c);
    } else {
      assert [c][1..] == [] && cs + [c] == [c];
    }
  }

  lemma FreshIsWeighed<S>(c: Checkpoint<S>, l: Limits<S>)
    ensures Weighed(Timeline([], [c], 0, 1, 0, Saturating(c.bytes)), l)
  {
    assert [c][1..] == [];
    assert CheckpointsBytes([c]) == c.bytes + CheckpointsBytes([c][1..]);
  }

  lemma RecomputedIsWeighed<S>(t: Timeline<S>, l: Limits<S>)
    ensures Weighed(Recomputed(t, l), l)
  {}

  lemma AppendedIsWeighed<S>(t: Timeline<S>, r: TraceRecord, here: Checkpoint<S>, l: Limits<S>)
    requires l.interval > 0 && Weighed(t, l)
    ensures Weighed(Appended(t, r, here, l), l)
  {
    hide RecordsBytes, CheckpointsBytes;
    RecordsAppend(t.records, r, l);
    CheckpointsAppend(t.checkpoints, here);
  }

  lemma {:induction false} EvictedIsWeighed<S(!new)>(t: Timeline<S>, here: Checkpoint<S>, l: Limits<S>)
    requires Contiguous(t) && here.sequence == t.cursor == t.next - 1 && Weighed(t, l)
    ensures Weighed(Evicted(t, here, l), l)
    decreases |t.records|, if |t.checkpoints| == 1 then 1 else 0
  {
    hide Weighed;
    if t.memory > l.maxMemory && !Irreducible(t) {
      EvictOnceShrinks(t, here, l);
      OnceIsWeighed(t, here, l);
      EvictedIsWeighed(EvictOnce(t, here, l), here, l);
    }
  }

  lemma OnceIsWeighed<S>(t: Timeline<S>, here: Checkpoint<S>, l: Limits<S>)
    requires t.checkpoints != []
    ensures Weighed(EvictOnce(t, here, l), l)
  {
    hide Recomputed, DropThrough, Weighed;
    RecomputedIsWeighed(t.(checkpoints := t.checkpoints + [here]), l);
    if |t.checkpoints| > 1 { RecomputedIsWeighed(DropThrough(t, t.checkpoints[1].sequence), l); }
  }

  /** The running estimate never drifts from what the history holds. */
  lemma RecordingIsWeighed<S(!new)>(t: Timeline<S>, r: TraceRecord, here: Checkpoint<S>, l: Limits<S>)
    requires l.Sound() && Truncated(t, l).checkpoints != [] && Weighed(t, l)
    ensures Weighed(Stored(t, r, here, l), l)
    ensures var s := Stored(t, r, here, l);
      Contiguous(s) && here.sequence == s.cursor == s.next - 1 ==> Weighed(Evicted(s, here, l), l)
  {
    hide Recomputed, Weighed, DropThrough, Baseline;
    var a := Truncated(t, l);
    TruncatedIsWeighed(t, l);
    AppendedIsWeighed(a, r, here, l);
    var b := Appended(a, r, here, l);
    BoundedIsWeighed(b, here, l);
    var s := Stored(t, r, here, l);
    if Contiguous(s) && here.sequence == s.cursor == s.next - 1 { EvictedIsWeighed(s, here, l); }
  }

  lemma TruncatedIsWeighed<S>(t: Timeline<S>, l: Limits<S>)
    requires Weighed(t, l)
    ensures Weighed(Truncated(t, l), l)
  {}

  lemma BoundedIsWeighed<S>(t: Timeline<S>, here: Checkpoint<S>, l: Limits<S>)
    requires t.checkpoints != [] && l.maxEvents > 0 && Weighed(t, l)
    ensures Weighed(Bounded(t, here, l), l)
  {
    hide DropThrough, Baseline;
  }

  // ----- one whole recording -----

  /** Recording forgot no more than the limit on records required, then no more than the memory limit did. */
  ghost predicate Spares<S(!new)>(t: Timeline<S>, r: TraceRecord, here: Checkpoint<S>, u: Timeline<S>, l: Limits<S>) {
    && l.Sound() && t.next > 0 && Truncated(t, l).checkpoints != []
    && var s := Stored(t, r, here, l);
      && SparesByCount(t, r, s, l)
      && SparesByMemory(s, u, l)
      && (Position(t) - t.dropped < l.maxEvents ==> s.dropped == t.dropped)
  }

  lemma RecordingSpares<S(!new)>(t: Timeline<S>, past: seq<S>, e: Engine<S>, l: Limits<S>, r: TraceRecord,
                                 here: Checkpoint<S>, past': seq<S>)
    returns (u: Timeline<S>)
    requires Window(t, past, e, l) && Weighed(t, l) && r.sequence == here.sequence == Position(t) + 1
    requires Happened(e, past[Position(t)], r, here.snapshot)
    requires past' == past[..Position(t) + 1] + [here.snapshot]
    ensures Truncated(t, l).checkpoints != []
    ensures var s := Stored(t, r, here, l); Contiguous(s) && here.sequence == s.cursor == s.next - 1
    ensures u == Evicted(Stored(t, r, here, l), here, l)
    ensures Window(u, past', e, l) && Continues(t, r, u) && Weighed(u, l) && Spares(t, r, here, u, l)
    ensures u.memory <= l.maxMemory || Irreducible(u)
  {
    assert Contiguous(t) && |past| == t.next;
    hide Window, Happened, Continues, Contiguous, Stored, Irreducible, Truncated, Evicted, Weighed, SparesByCount,
        SparesByMemory;
    var s := StoredKeepsWindow(t, past, e, l, r, here, past');
    var s', u' := RecordKeepsWindow(t, past, e, l, r, here, past');
    u := u';
    StoredSpares(t, past, e, l, r, here);
    EvictedSpares(s, here, l);
    RecordingIsWeighed(t, r, here, l);
  }
}
