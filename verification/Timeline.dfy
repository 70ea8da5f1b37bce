/**
 The bounded reversible history as a value: records, checkpoints and the
 counters beside them, with the operations `TraceHistory` performs on them.
 */
module Timeline {
  import opened Prelude
  import opened Simulation

  const USIZE_MAX: nat := 0xFFFF_FFFF_FFFF_FFFF

  function Saturating(n: nat): nat { Min(n, USIZE_MAX) }

  datatype Checkpoint<+S> = Checkpoint(sequence: nat, snapshot: S, bytes: nat)

  datatype Timeline<+S> = Timeline(
    records: seq<TraceRecord>, checkpoints: seq<Checkpoint<S>>,
    cursor: nat, next: nat, dropped: nat, memory: nat)

  /** The fixed part of a history: its limits and the byte estimates. */
  datatype Limits<!S> = Limits(
    maxEvents: nat, maxMemory: nat, interval: nat, sourceBytes: nat,
    recordBytes: TraceRecord -> nat, snapshotBytes: S -> nat)
  {
    predicate Sound() { maxEvents >= 2 && 1 <= interval <= maxEvents }
  }

  // ----- memory estimate -----

  function RecordsBytes<S>(rs: seq<TraceRecord>, l: Limits<S>): nat {
    if rs == [] then 0 else l.recordBytes(rs[0]) + RecordsBytes(rs[1..], l)
  }

  function CheckpointsBytes<S>(cs: seq<Checkpoint<S>>): nat {
    if cs == [] then 0 else cs[0].bytes + CheckpointsBytes(cs[1..])
  }

  function Recomputed<S>(t: Timeline<S>, l: Limits<S>): Timeline<S> {
    t.(memory := Saturating(Saturating(RecordsBytes(t.records, l) + CheckpointsBytes(t.checkpoints)) + l.sourceBytes))
  }

  // ----- truncation and eviction -----

  function RetainRecords(rs: seq<TraceRecord>, limit: nat): seq<TraceRecord> {
    if rs == [] then [] else
    (if rs[0].sequence <= limit then [rs[0]] else []) + RetainRecords(rs[1..], limit)
  }

  function RetainCheckpoints<S>(cs: seq<Checkpoint<S>>, limit: nat): seq<Checkpoint<S>> {
    if cs == [] then [] else
    (if cs[0].sequence <= limit then [cs[0]] else []) + RetainCheckpoints(cs[1..], limit)
  }

  /** Going back and then recording discards the future. */
  function Truncated<S>(t: Timeline<S>, l: Limits<S>): Timeline<S> {
    if t.cursor + 1 < t.next then
      Recomputed(t.(records := RetainRecords(t.records, t.cursor),
                    checkpoints := RetainCheckpoints(t.checkpoints, t.cursor),
                    next := t.cursor + 1), l)
    else t
  }

  function DropRecords(rs: seq<TraceRecord>, baseline: nat): (r: seq<TraceRecord>)
    ensures |r| <= |rs|
  {
    if rs != [] && rs[0].sequence <= baseline then DropRecords(rs[1..], baseline) else rs
  }

  function DropCheckpoints<S>(cs: seq<Checkpoint<S>>, baseline: nat): (r: seq<Checkpoint<S>>)
    ensures |r| <= |cs|
  {
    if |cs| > 1 && cs[1].sequence <= baseline then DropCheckpoints(cs[1..], baseline) else cs
  }

  function DropThrough<S>(t: Timeline<S>, baseline: nat): Timeline<S> {
    var rs := DropRecords(t.records, baseline);
    t.(records := rs, dropped := t.dropped + (|t.records| - |rs|),
       checkpoints := DropCheckpoints(t.checkpoints, baseline))
  }

  /** The first checkpoint at or after `first` that lies beyond `front`. */
  function Baseline<S>(cs: seq<Checkpoint<S>>, first: nat, front: nat): Option<nat> {
    if cs == [] then None
    else if cs[0].sequence >= first && cs[0].sequence > front then Some(cs[0].sequence)
    else Baseline(cs[1..], first, front)
  }

  function Appended<S>(t: Timeline<S>, r: TraceRecord, here: Checkpoint<S>, l: Limits<S>): Timeline<S>
    requires l.interval > 0
  {
    var u := t.(records := t.records + [r], next := t.next + 1, cursor := t.next,
                memory := Saturating(t.memory + l.recordBytes(r)));
    if t.next % l.interval == 0 || r.action == External then
      u.(checkpoints := t.checkpoints + [here], memory := Saturating(u.memory + here.bytes))
    else u
  }

  /** Eviction by count. */
  function Bounded<S>(t: Timeline<S>, here: Checkpoint<S>, l: Limits<S>): Timeline<S>
    requires t.checkpoints != [] && l.maxEvents > 0
  {
    if |t.records| > l.maxEvents then
      var first := t.records[|t.records| - l.maxEvents].sequence;
      match Baseline(t.checkpoints, first, t.checkpoints[0].sequence)
      case Some(baseline) => Recomputed(DropThrough(t, baseline), l)
      case None => Recomputed(DropThrough(t.(checkpoints := t.checkpoints + [here]), here.sequence), l)
    else t
  }

  // ----- the window invariant -----

  /** Retained sequences are exactly `dropped + 1 .. next - 1`, anchored by increasing checkpoints. */
  ghost predicate Contiguous<S>(t: Timeline<S>) {
    && t.next == t.dropped + |t.records| + 1
    && (forall i :: 0 <= i < |t.records| ==> t.records[i].sequence == t.dropped + 1 + i)
    && t.checkpoints != [] && t.checkpoints[0].sequence == t.dropped
    && (forall i, j :: 0 <= i < j < |t.checkpoints| ==> t.checkpoints[i].sequence < t.checkpoints[j].sequence)
    && (forall i :: 0 <= i < |t.checkpoints| ==> t.checkpoints[i].sequence < t.next)
    && t.dropped <= t.cursor
  }

  ghost predicate HasCheckpoint<S>(t: Timeline<S>, sequence: nat) {
    exists i :: 0 <= i < |t.checkpoints| && t.checkpoints[i].sequence == sequence
  }

  /** External records and multiples of the interval keep a checkpoint of their own. */
  predicate NeedsAnchor<S>(r: TraceRecord, l: Limits<S>)
    requires l.interval > 0
  {
    r.action == External || r.sequence % l.interval == 0
  }

  ghost predicate Anchored<S>(t: Timeline<S>, l: Limits<S>)
    requires l.interval > 0
  {
    forall i :: 0 <= i < |t.records| && NeedsAnchor(t.records[i], l) ==> HasCheckpoint(t, t.records[i].sequence)
  }

  lemma AnchorOf<S>(t: Timeline<S>, l: Limits<S>, i: nat)
    requires l.interval > 0 && Anchored(t, l) && i < |t.records|
    ensures NeedsAnchor(t.records[i], l) ==> HasCheckpoint(t, t.records[i].sequence)
  {}

  /** `past[q]` is the state the debugger was in when sequence `q` was recorded. */
  ghost predicate Remembers<S(!new)>(t: Timeline<S>, past: seq<S>, e: Engine<S>) {
    && Contiguous(t)
    && |past| == t.next
    && (forall i :: 0 <= i < |t.checkpoints| ==> t.checkpoints[i].snapshot == past[t.checkpoints[i].sequence])
    && (forall i :: 0 <= i < |t.records| ==>
          Happened(e, past[t.records[i].sequence - 1], t.records[i], past[t.records[i].sequence]))
  }

  /** The sequence number whose state the simulator is in. */
  function Position<S>(t: Timeline<S>): nat
    requires t.next > 0
  { Min(t.cursor, t.next - 1) }

  ghost predicate Window<S(!new)>(t: Timeline<S>, past: seq<S>, e: Engine<S>, l: Limits<S>) {
    && l.Sound()
    && Remembers(t, past, e)
    && Anchored(t, l)
    && |t.records| <= l.maxEvents
  }

  // ----- shape lemmas -----

  lemma {:induction false} RetainRecordsIsPrefix(rs: seq<TraceRecord>, first: nat, limit: nat)
    requires forall i :: 0 <= i < |rs| ==> rs[i].sequence == first + i
    ensures RetainRecords(rs, limit) == rs[..Min(|rs|, if limit + 1 >= first then limit + 1 - first else 0)]
  {
    if rs != [] {
      RetainRecordsIsPrefix(rs[1..], first + 1, limit);
      if rs[0].sequence <= limit {
        assert rs[..Min(|rs|, limit + 1 - first)] == [rs[0]] + rs[1..][..Min(|rs| - 1, limit - first)];
      }
    }
  }

  /** On increasing checkpoints, retaining keeps a prefix: exactly those at or before the limit. */
  lemma {:induction false} RetainCheckpointsIsPrefix<S>(cs: seq<Checkpoint<S>>, limit: nat)
    requires forall i, j :: 0 <= i < j < |cs| ==> cs[i].sequence < cs[j].sequence
    ensures var r := RetainCheckpoints(cs, limit);
      |r| <= |cs| && r == cs[..|r|] && (forall i :: 0 <= i < |cs| ==> (i < |r| <==> cs[i].sequence <= limit))
  {
    if cs != [] {
      RetainCheckpointsIsPrefix(cs[1..], limit);
      var r := RetainCheckpoints(cs[1..], limit);
      if cs[0].sequence <= limit {
        forall i | 0 <= i < |cs| ensures i < |r| + 1 <==> cs[i].sequence <= limit {
          if i > 0 { assert cs[i] == cs[1..][i - 1]; }
        }
      } else {
        assert |cs| > 1 ==> cs[1..][0].sequence > limit;
      }
    }
  }

  lemma {:induction false} DropRecordsCount(rs: seq<TraceRecord>, first: nat, baseline: nat)
    requires forall i :: 0 <= i < |rs| ==> rs[i].sequence == first + i
    ensures DropRecords(rs, baseline) == rs[Min(|rs|, if baseline + 1 >= first then baseline + 1 - first else 0)..]
  {
    if rs != [] && rs[0].sequence <= baseline { DropRecordsCount(rs[1..], first + 1, baseline); }
  }

  lemma {:induction false} DropCheckpointsTo<S>(cs: seq<Checkpoint<S>>, k: nat)
    requires k < |cs|
    requires forall i, j :: 0 <= i < j < |cs| ==> cs[i].sequence < cs[j].sequence
    ensures DropCheckpoints(cs, cs[k].sequence) == cs[k..]
  {
    if k > 0 {
      assert cs[1..][k - 1] == cs[k];
      DropCheckpointsTo(cs[1..], k - 1);
    } else {
      assert cs == cs[0..];
    }
  }

  /** Dropping through checkpoint `k` makes it the front and forgets exactly the records up to it. */
  lemma DropThroughShape<S>(t: Timeline<S>, k: nat)
    requires Contiguous(t) && k < |t.checkpoints| && t.checkpoints[k].sequence <= t.cursor
    ensures var u := DropThrough(t, t.checkpoints[k].sequence); var b := t.checkpoints[k].sequence;
      && t.dropped <= b && (k > 0 ==> t.dropped < b)
      && u == t.(records := t.records[b - t.dropped..], dropped := b, checkpoints := t.checkpoints[k..])
  {
    var b := t.checkpoints[k].sequence;
    DropRecordsCount(t.records, t.dropped + 1, b);
    DropCheckpointsTo(t.checkpoints, k);
    if k > 0 { assert t.checkpoints[0].sequence < t.checkpoints[k].sequence; }
  }

  lemma DroppedContiguous<S>(t: Timeline<S>, u: Timeline<S>, k: nat)
    requires Contiguous(t) && k < |t.checkpoints| && t.dropped <= t.checkpoints[k].sequence <= t.cursor
    requires var b := t.checkpoints[k].sequence;
      && u == t.(records := t.records[b - t.dropped..], dropped := b, checkpoints := t.checkpoints[k..],
          memory := u.memory)
    ensures Contiguous(u)
  {
    var off := t.checkpoints[k].sequence - t.dropped;
    assert forall i :: 0 <= i < |u.records| ==> u.records[i] == t.records[i + off];
    assert forall i :: 0 <= i < |u.checkpoints| ==> u.checkpoints[i] == t.checkpoints[i + k];
  }

  lemma DropThroughKeepsWindow<S(!new)>(t: Timeline<S>, past: seq<S>, e: Engine<S>, l: Limits<S>, k: nat)
    requires l.interval > 0 && Remembers(t, past, e) && Anchored(t, l)
    requires k < |t.checkpoints| && t.checkpoints[k].sequence <= t.cursor
    ensures var u := DropThrough(t, t.checkpoints[k].sequence);
      Remembers(u, past, e) && Anchored(u, l)
  {
    DropThroughShape(t, k);
    var u := DropThrough(t, t.checkpoints[k].sequence);
    DroppedStates(t, u, past, e, k);
    DroppedAnchors(t, u, l, k);
  }

  lemma DroppedStates<S(!new)>(t: Timeline<S>, u: Timeline<S>, past: seq<S>, e: Engine<S>, k: nat)
    requires Remembers(t, past, e) && k < |t.checkpoints|
    requires t.dropped <= t.checkpoints[k].sequence <= t.cursor
    requires var b := t.checkpoints[k].sequence;
      u == t.(records := t.records[b - t.dropped..], dropped := b, checkpoints := t.checkpoints[k..])
    ensures Remembers(u, past, e)
  {
    DroppedContiguous(t, u, k);
    var off := t.checkpoints[k].sequence - t.dropped;
    assert forall i :: 0 <= i < |u.records| ==> u.records[i] == t.records[i + off];
    assert forall i :: 0 <= i < |u.checkpoints| ==> u.checkpoints[i] == t.checkpoints[i + k];
  }

  lemma DroppedAnchors<S>(t: Timeline<S>, u: Timeline<S>, l: Limits<S>, k: nat)
    requires l.interval > 0 && Contiguous(t) && Anchored(t, l) && k < |t.checkpoints|
    requires t.dropped <= t.checkpoints[k].sequence <= t.dropped + |t.records|
    requires u.records == t.records[t.checkpoints[k].sequence - t.dropped..] && u.checkpoints == t.checkpoints[k..]
    ensures Anchored(u, l)
  {
    var b := t.checkpoints[k].sequence;
    forall i | 0 <= i < |u.records| && NeedsAnchor(u.records[i], l)
      ensures HasCheckpoint(u, u.records[i].sequence)
    {
      var q := u.records[i].sequence;
      assert u.records[i] == t.records[i + (b - t.dropped)];
      assert HasCheckpoint(t, q);
      var j :| 0 <= j < |t.checkpoints| && t.checkpoints[j].sequence == q;
      assert j >= k;
      assert u.checkpoints[j - k].sequence == q;
    }
  }

  /** With a lawful interval the fallback of count eviction is never taken: some retained anchor qualifies. */
  lemma {:induction false} BaselineFinds<S>(cs: seq<Checkpoint<S>>, k: nat, first: nat, front: nat)
    requires k < |cs| && cs[k].sequence >= first && cs[k].sequence > front
    ensures exists j :: (0 <= j <= k && Baseline(cs, first, front) == Some(cs[j].sequence)
      && cs[j].sequence >= first && cs[j].sequence > front)
  {
    if !(cs[0].sequence >= first && cs[0].sequence > front) {
      BaselineFinds(cs[1..], k - 1, first, front);
      var j :| 0 <= j <= k - 1 && Baseline(cs[1..], first, front) == Some(cs[1..][j].sequence)
        && cs[1..][j].sequence >= first && cs[1..][j].sequence > front;
      assert cs[1..][j] == cs[j + 1];
    } else {
      assert Baseline(cs, first, front) == Some(cs[0].sequence);
    }
  }

  lemma AddDivisor(a: nat, n: nat)
    requires n > 0
    ensures (a + n) % n == a % n
  {
    var d := (a + n) / n - a / n - 1;
    assert d * n == a % n - (a + n) % n;
    MulBound(d, n);
  }

  lemma MulBound(d: int, n: int)
    requires n >= 0
    ensures d >= 1 ==> d * n >= n
    ensures d <= -1 ==> d * n <= -n
  {
    if d >= 1 { assert d * n == (d - 1) * n + n; }
    if d <= -1 { assert d * n == (d + 1) * n - n; }
  }

  lemma {:induction false} MultipleInWindow(first: nat, interval: nat) returns (m: nat)
    requires interval > 0
    ensures first <= m < first + interval && m % interval == 0
  {
    if first < interval {
      m := if first == 0 then 0 else interval;
      AddDivisor(0, interval);
    } else {
      m := MultipleInWindow(first - interval, interval);
      AddDivisor(m, interval);
      m := m + interval;
    }
  }

  lemma EvictionFindsAnAnchor<S(!new)>(t: Timeline<S>, past: seq<S>, e: Engine<S>, l: Limits<S>) returns (k: nat)
    requires l.Sound() && Remembers(t, past, e) && Anchored(t, l) && |t.records| == l.maxEvents + 1
    ensures 0 < k < |t.checkpoints|
    ensures Baseline(t.checkpoints, t.records[1].sequence, t.checkpoints[0].sequence) == Some(t.checkpoints[k].sequence)
  {
    var first := t.records[1].sequence;
    var m := MultipleInWindow(first, l.interval);
    assert t.records[m - t.dropped - 1].sequence == m;
    assert HasCheckpoint(t, m);
    var j :| 0 <= j < |t.checkpoints| && t.checkpoints[j].sequence == m;
    BaselineFinds(t.checkpoints, j, first, t.checkpoints[0].sequence);
    k :| 0 <= k <= j && Baseline(t.checkpoints, first, t.checkpoints[0].sequence) == Some(t.checkpoints[k].sequence)
      && t.checkpoints[k].sequence > t.checkpoints[0].sequence;
  }
}
