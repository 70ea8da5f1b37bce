/**
 Reading a history back: `state_diff` folds the journal between two retained
 states, `previous_write` finds the latest store to a location.
 */
module StateDiff {
  import opened Prelude
  import opened Simulation
  import opened Timeline

  type Changes = map<string, (nat, nat)>

  /** What a location holds after the writes, if every write names the value it replaces. */
  ghost function After(value: nat, writes: seq<Write>, target: string): Option<nat>
    decreases |writes|
  {
    if writes == [] then Some(value)
    else if writes[0].target != target then After(value, writes[1..], target)
    else if writes[0].before != value then None
    else After(writes[0].after, writes[1..], target)
  }

  /** The journal of a transition accounts for every change of every named location. */
  ghost predicate Journals<S(!new)>(read: (S, string) -> nat, s: S, writes: seq<Write>, s': S) {
    forall target :: After(read(s, target), writes, target) == Some(read(s', target))
  }

  ghost predicate Journalled<S(!new)>(t: Timeline<S>, past: seq<S>, read: (S, string) -> nat)
    requires Contiguous(t) && |past| == t.next
  {
    forall i :: 0 <= i < |t.records| ==>
      Journals(read, past[t.records[i].sequence - 1], t.records[i].writes, past[t.records[i].sequence])
  }

  // ----- state_diff -----

  function FoldWrites(changes: Changes, writes: seq<Write>): Changes
    decreases |writes|
  {
    if writes == [] then changes
    else
      var w := writes[0];
      FoldWrites(changes[w.target := (if w.target in changes then changes[w.target].0 else w.before, w.after)],
        writes[1..])
  }

  function FoldRecords(changes: Changes, rs: seq<TraceRecord>, low: nat, high: nat): Changes
    decreases |rs|
  {
    if rs == [] then changes
    else FoldRecords(if low < rs[0].sequence <= high then FoldWrites(changes, rs[0].writes)
      else changes, rs[1..], low, high)
  }

  function Reversed(changes: Changes): Changes {
    map target | target in changes :: (changes[target].1, changes[target].0)
  }

  predicate Retained<S>(t: Timeline<S>, endpoint: nat) {
    || (exists i :: 0 <= i < |t.records| && t.records[i].sequence == endpoint)
    || (exists i :: 0 <= i < |t.checkpoints| && t.checkpoints[i].sequence == endpoint)
  }

  /** The refused endpoint, or the changes from the state at `from` to the state at `to`. */
  function Diff<S>(t: Timeline<S>, from: nat, to: nat): Result<Changes, nat> {
    if !Retained(t, from) then Err(from)
    else if !Retained(t, to) then Err(to)
    else
      var folded := FoldRecords(map[], t.records, if from <= to then from else to, if from <= to then to else from);
      Ok(if from > to then Reversed(folded) else folded)
  }

  method StateDiff<S>(t: Timeline<S>, from: nat, to: nat) returns (r: Result<Changes, nat>)
    ensures r == Diff(t, from, to)
  {
    if !Retained(t, from) { return Err(from); }
    if !Retained(t, to) { return Err(to); }
    var low, high := if from <= to then from else to, if from <= to then to else from;
    var changes: Changes := map[];
    for i := 0 to |t.records|
      invariant FoldRecords(changes, t.records[i..], low, high) == FoldRecords(map[], t.records, low, high)
    {
      var record := t.records[i];
      assert t.records[i..][0] == record && t.records[i..][1..] == t.records[i + 1..];
      if low < record.sequence <= high {
        var folded := changes;
        for j := 0 to |record.writes|
          invariant FoldWrites(folded, record.writes[j..]) == FoldWrites(changes, record.writes)
        {
          var w := record.writes[j];
          assert record.writes[j..][0] == w && record.writes[j..][1..] == record.writes[j + 1..];
          var first: nat := if w.target in folded then folded[w.target].0 else w.before;
          folded := folded[w.target := (first, w.after)];
        }
        changes := folded;
      }
    }
    assert t.records[|t.records|..] == [];
    if from > to {
      changes := map target | target in changes :: (changes[target].1, changes[target].0);
    }
    r := Ok(changes);
  }

  /** `changes` lists the old and the new value of locations, and every location it does not list is unchanged. */
  ghost predicate Patch<S(!new)>(read: (S, string) -> nat, changes: Changes, s: S, s': S) {
    forall target ::
      if target in changes then changes[target] == (read(s, target), read(s', target))
      else read(s, target) == read(s', target)
  }

  lemma {:induction false} FoldWritesTracks(changes: Changes, writes: seq<Write>, target: string, first: nat,
                          value: nat)
    requires if target in changes then changes[target] == (first, value) else first == value
    requires After(value, writes, target).Some?
    ensures var folded := FoldWrites(changes, writes); var last := After(value, writes, target).value;
      if target in folded then folded[target] == (first, last) else first == last
    decreases |writes|
  {
    if writes != [] {
      var w := writes[0];
      var next := changes[w.target := (if w.target in changes then changes[w.target].0 else w.before, w.after)];
      FoldWritesTracks(next, writes[1..], target, first, if w.target == target then w.after else value);
    }
  }

  lemma FoldWritesPatches<S(!new)>(read: (S, string) -> nat, changes: Changes, s: S, m: S, writes: seq<Write>, s': S)
    requires Patch(read, changes, s, m) && Journals(read, m, writes, s')
    ensures Patch(read, FoldWrites(changes, writes), s, s')
  {
    forall target
      ensures var folded := FoldWrites(changes, writes);
        if target in folded then folded[target] == (read(s, target), read(s', target))
          else read(s, target) == read(s', target)
    {
      assert After(read(m, target), writes, target) == Some(read(s', target));
      FoldWritesTracks(changes, writes, target, read(s, target), read(m, target));
    }
  }

  lemma {:induction false} FoldRecordsPatches<S(!new)>(t: Timeline<S>, past: seq<S>, read: (S, string) -> nat,
                                                       changes: Changes, low: nat, high: nat, i: nat)
    requires Contiguous(t) && |past| == t.next && Journalled(t, past, read)
    requires t.dropped <= low <= high < t.next && i <= |t.records|
    requires Patch(read, changes, past[low], past[if t.dropped + i <= low then low else Min(t.dropped + i, high)])
    ensures Patch(read, FoldRecords(changes, t.records[i..], low, high), past[low], past[high])
    decreases |t.records| - i
  {
    if i < |t.records| {
      var r := t.records[i];
      assert t.records[i..][0] == r && t.records[i..][1..] == t.records[i + 1..];
      if low < r.sequence <= high {
        FoldWritesPatches(read, changes, past[low], past[r.sequence - 1], r.writes, past[r.sequence]);
        FoldRecordsPatches(t, past, read, FoldWrites(changes, r.writes), low, high, i + 1);
      } else {
        FoldRecordsPatches(t, past, read, changes, low, high, i + 1);
      }
    }
  }

  /** The retained endpoints are exactly the window, from the oldest checkpoint to the newest record. */
  lemma RetainedIsWindow<S(!new)>(t: Timeline<S>, endpoint: nat)
    requires Contiguous(t)
    ensures Retained(t, endpoint) <==> t.dropped <= endpoint < t.next
  {
    if t.dropped < endpoint < t.next { assert t.records[endpoint - t.dropped - 1].sequence == endpoint; }
    if endpoint == t.dropped { assert t.checkpoints[0].sequence == endpoint; }
    forall i | 0 <= i < |t.checkpoints| ensures t.dropped <= t.checkpoints[i].sequence < t.next {
      if i > 0 { assert t.checkpoints[0].sequence < t.checkpoints[i].sequence; }
    }
  }

  /**
   `state_diff` is a correct patch between any two states of the window, in
   either direction, and refuses every endpoint outside it.
   */
  lemma DiffIsPatch<S(!new)>(t: Timeline<S>, past: seq<S>, read: (S, string) -> nat, from: nat, to: nat)
    requires Contiguous(t) && |past| == t.next && Journalled(t, past, read)
    ensures Diff(t, from, to).Ok? <==> t.dropped <= from < t.next && t.dropped <= to < t.next
    ensures Diff(t, from, to).Ok? ==> Patch(read, Diff(t, from, to).value, past[from], past[to])
    ensures Diff(t, from, to).Err? ==> Diff(t, from, to).error == if t.dropped <= from < t.next then to else from
  {
    RetainedIsWindow(t, from);
    RetainedIsWindow(t, to);
    if Diff(t, from, to).Ok? {
      var low, high := if from <= to then from else to, if from <= to then to else from;
      assert t.records[0..] == t.records;
      FoldRecordsPatches(t, past, read, map[], low, high, 0);
    }
  }

  lemma SwappingEndpointsSwapsPairs<S>(t: Timeline<S>, from: nat, to: nat)
    requires from != to && Diff(t, from, to).Ok?
    ensures Diff(t, to, from) == Ok(Reversed(Diff(t, from, to).value))
  {
    var changes := FoldRecords(map[], t.records, if from <= to then from else to, if from <= to then to else from);
    assert Reversed(Reversed(changes)) == changes;
  }

  // ----- previous_write -----

  function FirstWrite(writes: seq<Write>, target: string): Option<Write> {
    if writes == [] then None
    else if writes[0].target == target then Some(writes[0])
    else FirstWrite(writes[1..], target)
  }

  function PreviousWrite(rs: seq<TraceRecord>, cursor: nat, target: string): Option<(TraceRecord, Write)> {
    if rs == [] then None
    else
      var r := rs[|rs| - 1];
      var found := if r.sequence <= cursor then FirstWrite(r.writes, target) else None;
      if found.Some? then Some((r, found.value)) else PreviousWrite(rs[..|rs| - 1], cursor, target)
  }

  lemma {:induction false} UnwrittenIsUnchanged(value: nat, writes: seq<Write>, target: string)
    requires FirstWrite(writes, target).None?
    ensures After(value, writes, target) == Some(value)
    decreases |writes|
  {
    if writes != [] { UnwrittenIsUnchanged(value, writes[1..], target); }
  }

  lemma {:induction false} FirstWriteReplaces(value: nat, writes: seq<Write>, target: string)
    requires FirstWrite(writes, target).Some? && After(value, writes, target).Some?
    ensures FirstWrite(writes, target).value.before == value && FirstWrite(writes, target).value.target == target
    decreases |writes|
  {
    if writes[0].target != target { FirstWriteReplaces(value, writes[1..], target); }
  }

  predicate Touches(writes: seq<Write>, target: string) { exists j :: 0 <= j < |writes| && writes[j].target == target }

  /** The first write to the location, which no earlier write of the record names. */
  predicate IsFirstWrite(writes: seq<Write>, target: string, w: Write) {
    exists j :: 0 <= j < |writes| && writes[j] == w && w.target == target && !Touches(writes[..j], target)
  }

  lemma {:induction false} FirstWriteIs(writes: seq<Write>, target: string)
    ensures match FirstWrite(writes, target)
      case None => !Touches(writes, target)
      case Some(w) => IsFirstWrite(writes, target, w)
    decreases |writes|
  {
    if writes == [] {
    } else if writes[0].target == target {
      assert writes[0] == writes[0] && !Touches(writes[..0], target);
    } else {
      FirstWriteIs(writes[1..], target);
      match FirstWrite(writes, target)
      case None =>
      case Some(w) =>
        var j :| 0 <= j < |writes| - 1 && writes[1..][j] == w && !Touches(writes[1..][..j], target);
        forall k | 0 <= k < j + 1 ensures writes[k].target != target {
          assert k > 0 ==> writes[1..][..j][k - 1] == writes[k];
        }
        assert writes[j + 1] == w;
    }
  }

  /**
   The latest record up to the cursor that writes the location, and its first write to it; none if there is no such
   record.
   */
  lemma {:induction false} PreviousWriteIsLatest<S>(t: Timeline<S>, target: string, n: nat)
    requires Contiguous(t) && n <= |t.records|
    ensures match PreviousWrite(t.records[..n], t.cursor, target)
      case None => forall k :: 0 <= k < n && t.records[k].sequence <= t.cursor ==> !Touches(t.records[k].writes, target)
      case Some((r, w)) =>
        (r in t.records[..n] && r.sequence <= t.cursor && IsFirstWrite(r.writes, target, w)
         && forall k :: 0 <= k < n && r.sequence < t.records[k].sequence <= t.cursor ==>
             !Touches(t.records[k].writes, target))
  {
    hide Touches, IsFirstWrite, FirstWrite;
    if n > 0 {
      var r := t.records[n - 1];
      assert t.records[..n][..n - 1] == t.records[..n - 1];
      PreviousWriteIsLatest(t, target, n - 1);
      FirstWriteIs(r.writes, target);
      assert forall x :: x in t.records[..n - 1] ==> x in t.records[..n];
      assert t.records[..n][n - 1] == r;
    }
  }

  /** The location still holds what the reported record left in it, or what the oldest state held. */
  ghost predicate KeptSince<S(!new)>(t: Timeline<S>, past: seq<S>, read: (S, string) -> nat, target: string, n: nat)
    requires Contiguous(t) && |past| == t.next && n <= |t.records|
  {
    var now := past[Min(t.dropped + n, if t.cursor < t.next then t.cursor else t.next - 1)];
    match PreviousWrite(t.records[..n], t.cursor, target)
    case None => read(now, target) == read(past[t.dropped], target)
    case Some((r, w)) =>
      && r in t.records && r.sequence <= t.cursor && w.target == target
      && read(now, target) == read(past[r.sequence], target)
      && w.before == read(past[r.sequence - 1], target)
  }

  lemma {:induction false} PreviousWriteValues<S(!new)>(t: Timeline<S>, past: seq<S>, read: (S, string) -> nat,
                                                        target: string, n: nat)
    requires Contiguous(t) && |past| == t.next && Journalled(t, past, read)
    requires n <= |t.records|
    ensures KeptSince(t, past, read, target, n)
  {
    hide FirstWrite, After;
    if n > 0 {
      var r := t.records[n - 1];
      assert t.records[..n][..n - 1] == t.records[..n - 1];
      PreviousWriteValues(t, past, read, target, n - 1);
      assert After(read(past[r.sequence - 1], target), r.writes, target) == Some(read(past[r.sequence], target));
      if r.sequence <= t.cursor {
        if FirstWrite(r.writes, target).None? {
          UnwrittenIsUnchanged(read(past[r.sequence - 1], target), r.writes, target);
        } else {
          FirstWriteReplaces(read(past[r.sequence - 1], target), r.writes, target);
        }
      }
    }
  }

  /**
   The reported record is the last one, up to the cursor, that writes the location, and the reported write is its
   first: the location has kept its value ever since, and held the reported `before` just earlier. With no report
   nothing wrote the location since the oldest state, and it kept its value.
   */
  lemma PreviousWriteIsLast<S(!new)>(t: Timeline<S>, past: seq<S>, read: (S, string) -> nat, target: string, n: nat)
    requires Contiguous(t) && |past| == t.next && Journalled(t, past, read)
    requires n <= |t.records|
    ensures KeptSince(t, past, read, target, n)
    ensures match PreviousWrite(t.records[..n], t.cursor, target)
      case None => forall k :: 0 <= k < n && t.records[k].sequence <= t.cursor ==> !Touches(t.records[k].writes, target)
      case Some((r, w)) =>
        (IsFirstWrite(r.writes, target, w)
         && forall k :: 0 <= k < n && r.sequence < t.records[k].sequence <= t.cursor ==>
             !Touches(t.records[k].writes, target))
  {
    hide Touches, IsFirstWrite, Journalled, KeptSince;
    PreviousWriteIsLatest(t, target, n);
    PreviousWriteValues(t, past, read, target, n);
  }
}
