/** What every interleaving of the relay authority keeps. */
module RelaySafety {
  import opened RelayGate
  import opened Relay

  ghost predicate Distinct<T>(s: seq<T>) { forall i, j :: 0 <= i < j < |s| ==> s[i] != s[j] }

  /**
   Accepted requests split into those with a response and those still active, each active one in exactly one place.
   */
  ghost predicate Identified(active: multiset<WorkItem>, accepted: seq<WorkItem>, results: Results) {
    && (forall x :: x in active ==> active[x] == 1 && x.id < |accepted| && accepted[x.id] == x && x.id !in results)
    && (forall id :: 0 <= id < |accepted| ==> accepted[id].id == id && (id !in results ==> accepted[id] in active))
    && (forall id :: id in results ==> id < |accepted|)
  }

  /** Cached keys split into active ones and completed ones; the completed queue lists the latter once each. */
  ghost predicate Cached(o: Options, active: multiset<WorkItem>, accepted: seq<WorkItem>, results: Results,
                         cache: map<Key, Entry>, completed: seq<Key>) {
    && (forall k :: k in cache ==>
          (cache[k].id < |accepted| && KeyOf(accepted[cache[k].id]) == k &&
            cache[k].fingerprint == o.fingerprint(accepted[cache[k].id].request)))
    && (forall x :: x in active ==> KeyOf(x) in cache && cache[KeyOf(x)].id == x.id)
    && Distinct(completed)
    && (forall k :: k in completed <==> k in cache && cache[k].id in results)
  }

  /** The executor was called at most once for each request, and not yet for an undecided one. */
  ghost predicate RanOnce(undecided: multiset<WorkItem>, accepted: seq<WorkItem>, executed: seq<nat>) {
    && Distinct(executed)
    && (forall id :: id in executed ==> id < |accepted|)
    && (forall x :: x in undecided ==> x.id !in executed)
  }

  /** Until disposal, queued requests equal permits plus workers that took one and have not dequeued. */
  ghost predicate Permitted(s: System) {
    !s.gate.disposed ==> s.permits + Total(s.workers, HoldsPermit) == |s.gate.queue|
  }

  ghost predicate Phased(s: System) {
    && (s.stopping || s.abandoned != [] ==> s.gate.disposed)
    && (forall w :: 0 <= w < |s.workers| && s.workers[w].Ended? ==> s.stopping)
  }

  ghost predicate Inv(o: Options, s: System) {
    && ValidLimits(o.limits) && Accounted(s.gate) && WithinLimits(o.limits, s.gate)
    && Identified(Active(s), s.accepted, s.results)
    && Cached(o, Active(s), s.accepted, s.results, s.gate.cache, s.gate.completed)
    && RanOnce(Undecided(s), s.accepted, s.executed)
    && Permitted(s) && Phased(s)
  }

  // ----- eviction -----

  function KeySet(keys: seq<Key>): set<Key> { set k | k in keys }

  lemma TrimStep(cache: map<Key, Entry>, completed: seq<Key>, keep: nat)
    ensures Trim(cache, completed, keep) ==
      if |cache| > keep && completed != [] then Trim(cache - {completed[0]}, completed[1..], keep)
        else (cache, completed)
  {}

  /** The first `n` completed keys evicted. */
  ghost predicate Evicted(cache: map<Key, Entry>, completed: seq<Key>, n: nat, c: map<Key, Entry>, d: seq<Key>) {
    n <= |completed| && c == cache - KeySet(completed[..n]) && d == completed[n..]
  }

  lemma EvictedOneMore(cache: map<Key, Entry>, completed: seq<Key>, n: nat, c: map<Key, Entry>, d: seq<Key>)
    requires completed != [] && Evicted(cache - {completed[0]}, completed[1..], n, c, d)
    ensures Evicted(cache, completed, n + 1, c, d)
  {
    var first, rest := completed[0], completed[1..];
    RemoveBoth(cache, first, rest[..n]);
    assert completed[..n + 1] == [first] + rest[..n] && completed[n + 1..] == rest[n..];
  }

  lemma NoneEvicted(cache: map<Key, Entry>, completed: seq<Key>)
    ensures Evicted(cache, completed, 0, cache, completed)
  {
    assert completed[..0] == [] && completed[0..] == completed && cache - KeySet([]) == cache;
  }

  /**
   Trimming removes exactly the oldest completed keys, in order of completion, and each only while there are too
   many.
   */
  lemma {:induction false} TrimEvictsOldest(cache: map<Key, Entry>, completed: seq<Key>, keep: nat) returns (n: nat)
    ensures var (c, d) := Trim(cache, completed, keep); Evicted(cache, completed, n, c, d) && (|c| <= keep || d == [])
    ensures forall i :: 0 <= i < n ==> |cache - KeySet(completed[..i])| > keep
    decreases |completed|
  {
    hide Trim, Evicted, KeySet;
    TrimStep(cache, completed, keep);
    if |cache| > keep && completed != [] {
      n := TrimEvictsOldest(cache - {completed[0]}, completed[1..], keep);
      var (c, d) := Trim(cache, completed, keep);
      EvictedOneMore(cache, completed, n, c, d);
      n := n + 1;
      forall i | 0 <= i < n ensures |cache - KeySet(completed[..i])| > keep { LeftAfter(cache, completed, i); }
    } else {
      n := 0;
      NoneEvicted(cache, completed);
    }
  }

  lemma LeftAfter(cache: map<Key, Entry>, completed: seq<Key>, i: nat)
    requires completed != [] && i <= |completed|
    ensures cache - KeySet(completed[..i]) ==
      if i == 0 then cache else cache - {completed[0]} - KeySet(completed[1..][..i - 1])
  {
    if i == 0 {
      assert completed[..0] == [] && cache - KeySet([]) == cache;
    } else {
      RemoveBoth(cache, completed[0], completed[1..][..i - 1]);
      assert completed[..i] == [completed[0]] + completed[1..][..i - 1];
    }
  }

  lemma RemoveBoth(cache: map<Key, Entry>, first: Key, others: seq<Key>)
    ensures cache - {first} - KeySet(others) == cache - KeySet([first] + others)
  {}

  lemma DropKeeps(completed: seq<Key>, n: nat)
    requires Distinct(completed) && n <= |completed|
    ensures Distinct(completed[n..])
    ensures forall k :: k in completed[n..] <==> k in completed && k !in completed[..n]
  {
    assert completed == completed[..n] + completed[n..];
    forall j | n <= j < |completed| ensures completed[j] !in completed[..n] {}
    assert forall k :: k in completed[n..] ==> k !in completed[..n];
  }

  /** Trimming keeps the cache in order: active entries are never evicted. */
  lemma TrimKeepsCached(o: Options, active: multiset<WorkItem>, accepted: seq<WorkItem>, results: Results,
                        cache: map<Key, Entry>, completed: seq<Key>, keep: nat)
    requires Cached(o, active, accepted, results, cache, completed)
    requires forall x :: x in active ==> x.id !in results
    ensures var (c, d) := Trim(cache, completed, keep);
      && Cached(o, active, accepted, results, c, d) && (|c| <= keep || d == [])
      && (forall k :: k in c ==> k in cache && c[k] == cache[k])
      && (forall k :: k in cache && cache[k].id !in results ==> k in c)
  {
    var n := TrimEvictsOldest(cache, completed, keep);
    var (c, d) := Trim(cache, completed, keep);
    DropKeeps(completed, n);
    assert forall k :: k in completed[..n] ==> k in completed;
    assert forall k :: k in c <==> k in cache && k !in completed[..n];
  }

  /** Within its limit the cache loses nothing when a request completes. */
  lemma CompleteNeverEvicts(o: Options, s: System, item: WorkItem)
    requires Inv(o, s) && item in Active(s)
    ensures Complete(o.limits, s.gate, item) == s.gate.(completed := s.gate.completed + [KeyOf(item)])
  {
    hide RanOnce, Accounted, Permitted, Phased, Active;
  }

  // ----- the three steps that change what is active -----

  lemma AcceptIdentifies(active: multiset<WorkItem>, accepted: seq<WorkItem>, results: Results, item: WorkItem)
    requires Identified(active, accepted, results) && item.id == |accepted|
    ensures Identified(active + multiset{item}, accepted + [item], results)
  {}

  lemma AcceptCaches(o: Options, active: multiset<WorkItem>, accepted: seq<WorkItem>, results: Results,
                     cache: map<Key, Entry>, completed: seq<Key>, item: WorkItem)
    requires Identified(active, accepted, results) && Cached(o, active, accepted, results, cache, completed)
    requires item.id == |accepted| && KeyOf(item) !in cache
    ensures Cached(o, active + multiset{item}, accepted + [item], results,
                   cache[KeyOf(item) := Entry(o.fingerprint(item.request), item.id)], completed)
  {
    hide KeyOf, Distinct;
    var key, all := KeyOf(item), accepted + [item];
    var cache' := cache[key := Entry(o.fingerprint(item.request), item.id)];
    assert item.id !in results && key !in completed;
    forall k | k in cache'
      ensures cache'[k].id < |all| && KeyOf(all[cache'[k].id]) == k
      ensures cache'[k].fingerprint == o.fingerprint(all[cache'[k].id].request)
    {
      if k != key { assert all[cache[k].id] == accepted[cache[k].id]; }
    }
    forall x | x in active + multiset{item} ensures KeyOf(x) in cache' && cache'[KeyOf(x)].id == x.id {
      if x != item { assert x in active; }
    }
    forall k ensures k in completed <==> k in cache' && cache'[k].id in results {
      if k != key { assert k in cache' <==> k in cache; }
    }
  }

  lemma FinishIdentifies(active: multiset<WorkItem>, accepted: seq<WorkItem>, results: Results, item: WorkItem,
                         response: Response)
    requires Identified(active, accepted, results) && item in active
    ensures item.id !in results
    ensures Identified(active - multiset{item}, accepted, TrySetResult(results, item.id, response))
  {}

  lemma FinishCaches(o: Options, active: multiset<WorkItem>, accepted: seq<WorkItem>, results: Results,
                     cache: map<Key, Entry>, completed: seq<Key>, item: WorkItem, response: Response)
    requires Identified(active, accepted, results) && Cached(o, active, accepted, results, cache, completed)
    requires item in active
    ensures Cached(o, active - multiset{item}, accepted, TrySetResult(results, item.id, response), cache, completed +
        [KeyOf(item)])
  {
    var key, results' := KeyOf(item), TrySetResult(results, item.id, response);
    assert key !in completed;
    forall k ensures k in completed + [key] <==> k in cache && cache[k].id in results' {
      if k in cache && cache[k].id == item.id { assert k == KeyOf(accepted[item.id]) == key; }
    }
  }

  lemma ExecuteRunsOnce(undecided: multiset<WorkItem>, active: multiset<WorkItem>, accepted: seq<WorkItem>,
                        results: Results, executed: seq<nat>, item: WorkItem)
    requires Identified(active, accepted, results) && RanOnce(undecided, accepted, executed)
    requires undecided <= active && item in undecided
    ensures RanOnce(undecided - multiset{item}, accepted, executed + [item.id])
  {
    forall x | x in undecided - multiset{item} ensures x.id !in executed + [item.id] {
      assert undecided[x] <= active[x] && undecided[item] <= active[item] == 1;
    }
  }

  lemma UndecidedIsActive(s: System)
    ensures Undecided(s) <= Active(s)
  {
    UndecidedIsHeld(s.workers);
  }

  // ----- every step -----

  /** The part of the invariant about requests, entries and executions. */
  ghost predicate Core(o: Options, s: System) {
    && Identified(Active(s), s.accepted, s.results)
    && Cached(o, Active(s), s.accepted, s.results, s.gate.cache, s.gate.completed)
    && RanOnce(Undecided(s), s.accepted, s.executed)
  }

  /** A step that only moves requests around. */
  lemma MovesKeepCore(o: Options, s: System, t: System)
    requires Core(o, s) && Active(t) == Active(s) && Undecided(t) <= Undecided(s)
    requires t.accepted == s.accepted && t.results == s.results && t.executed == s.executed
    requires t.gate.cache == s.gate.cache && t.gate.completed == s.gate.completed
    ensures Core(o, t)
  {
    hide Active, Undecided, Identified, Cached;
  }

  lemma SameSum<T>(a: multiset<T>, b: multiset<T>, c: multiset<T>)
    requires a + b == c + b
    ensures a == c
  {
    assert a == (a + b) - b && c == (c + b) - b;
  }

  lemma TakenAway<T>(a: multiset<T>, b: multiset<T>, c: multiset<T>)
    requires a + b == c + multiset{}
    ensures a == c - b && b <= c
  {
    assert c == c + multiset{} && a == (a + b) - b;
  }

  /** What a worker's change does to the requests gathered from all workers. */
  lemma GatheredCases(workers: seq<Worker>, f: Worker -> multiset<WorkItem>, w: nat, x: Worker)
    requires w < |workers|
    ensures f(workers[w]) <= Gathered(workers, f)
    ensures f(workers[w]) == f(x) ==> Gathered(workers[w := x], f) == Gathered(workers, f)
    ensures f(x) == multiset{} ==> Gathered(workers[w := x], f) == Gathered(workers, f) - f(workers[w])
    ensures f(workers[w]) == multiset{} ==> Gathered(workers[w := x], f) == Gathered(workers, f) + f(x)
  {
    var g, h := Gathered(workers[w := x], f), Gathered(workers, f);
    GatheredUpdate(workers, f, w, x);
    if f(workers[w]) == f(x) { SameSum(g, f(x), h); }
    if f(x) == multiset{} { TakenAway(g, f(workers[w]), h); }
    if f(workers[w]) == multiset{} { assert g == g + multiset{}; }
  }

  lemma TakenFromMiddle<T>(a: multiset<T>, b: multiset<T>, c: multiset<T>, x: multiset<T>)
    requires x <= b
    ensures a + (b - x) + c == a + b + c - x && x <= a + b + c
  {}

  /** A worker that lets go of nothing, or of all it holds, while the queues stay. */
  lemma WorkerMoves(s: System, t: System, w: nat, x: Worker)
    requires w < |s.workers| && t.workers == s.workers[w := x]
    requires t.gate.queue == s.gate.queue && t.abandoned == s.abandoned
    ensures HeldBy(s.workers[w]) <= Active(s)
    ensures HeldBy(x) == HeldBy(s.workers[w]) ==> Active(t) == Active(s)
    ensures HeldBy(x) == multiset{} ==> Active(t) == Active(s) - HeldBy(s.workers[w])
  {
    hide Gathered, HeldBy;
    GatheredCases(s.workers, HeldBy, w, x);
    TakenFromMiddle(multiset(s.gate.queue), Gathered(s.workers, HeldBy), multiset(s.abandoned), HeldBy(s.workers[w]));
  }

  lemma WorkerDecides(s: System, t: System, w: nat, x: Worker)
    requires w < |s.workers| && t.workers == s.workers[w := x] && UndecidedBy(x) == multiset{}
    requires t.gate.queue == s.gate.queue && t.abandoned == s.abandoned
    ensures UndecidedBy(s.workers[w]) <= Undecided(s)
    ensures Undecided(t) == Undecided(s) - UndecidedBy(s.workers[w])
  {
    hide Gathered, UndecidedBy;
    GatheredCases(s.workers, UndecidedBy, w, x);
    TakenFromMiddle(multiset(s.gate.queue), Gathered(s.workers, UndecidedBy), multiset(s.abandoned),
      UndecidedBy(s.workers[w]));
  }

  lemma InitialInv(o: Options, workers: nat)
    requires ValidLimits(o.limits)
    ensures Inv(o, Initial(workers))
  {
    var s := Initial(workers);
    GatheredNothing(s.workers, HeldBy);
    GatheredNothing(s.workers, UndecidedBy);
    TotalNothing(s.workers, HoldsPermit);
  }

  lemma PermitsMove(s: System, t: System, w: nat, x: Worker)
    requires Permitted(s) && w < |s.workers| && t.workers == s.workers[w := x] && t.gate.disposed == s.gate.disposed
    requires !s.gate.disposed ==>
      t.permits + HoldsPermit(x) + |s.gate.queue| == s.permits + HoldsPermit(s.workers[w]) + |t.gate.queue|
    ensures Permitted(t)
  {
    TotalUpdate(s.workers, HoldsPermit, w, x);
  }

  lemma PhaseStays(s: System, t: System, w: nat, x: Worker)
    requires Phased(s) && w < |s.workers| && t.workers == s.workers[w := x] && (x.Ended? ==> s.stopping)
    requires t.stopping == s.stopping && t.abandoned == s.abandoned && t.gate.disposed == s.gate.disposed
    ensures Phased(t)
  {}

  /** A worker's step that touches neither the requests nor the gate. */
  lemma WorkerStepKeeps(o: Options, s: System, t: System, w: nat, x: Worker)
    requires Inv(o, s) && w < |s.workers| && t == s.(permits := t.permits, workers := s.workers[w := x])
    requires HeldBy(x) == HeldBy(s.workers[w]) && UndecidedBy(x) == multiset{} && (x.Ended? ==> s.stopping)
    requires t.permits + HoldsPermit(x) == s.permits + HoldsPermit(s.workers[w])
    ensures Inv(o, t)
  {
    hide Active, Undecided, Identified, Cached, RanOnce, Accounted, WithinLimits, Permitted, Phased, Core, HeldBy,
        UndecidedBy, HoldsPermit;
    WorkerMoves(s, t, w, x);
    WorkerDecides(s, t, w, x);
    PermitsMove(s, t, w, x);
    PhaseStays(s, t, w, x);
    MoveKeeps(o, s, t);
  }

  lemma WaitingKeeps(o: Options, s: System, e: Event)
    requires Inv(o, s) && Enabled(s, e) && (e.TookPermit? || e.WorkerEnded?)
    ensures Inv(o, Next(o, s, e))
  {
    hide Inv;
    assert ValidLimits(o.limits) by { InvLimits(o, s); }
    WorkerStepKeeps(o, s, Next(o, s, e), e.w, if e.TookPermit? then Holding else Ended);
  }

  lemma SignalKeeps(o: Options, s: System)
    requires Inv(o, s) && Enabled(s, StopSignalled)
    ensures Inv(o, Next(o, s, StopSignalled))
  {
    hide Active, Undecided, Identified, Cached, RanOnce, Accounted, WithinLimits, Total, Core;
    var t := Next(o, s, StopSignalled);
    SamePlaces(s, t);
    MoveKeeps(o, s, t);
  }

  /** The invariant after a step that only moves requests around, up to accounting. */
  lemma MoveKeeps(o: Options, s: System, t: System)
    requires Inv(o, s) && Active(t) == Active(s) && Undecided(t) <= Undecided(s)
    requires t.accepted == s.accepted && t.results == s.results && t.executed == s.executed
    requires t.gate.cache == s.gate.cache && t.gate.completed == s.gate.completed
    requires Accounted(t.gate) && WithinLimits(o.limits, t.gate) && Permitted(t) && Phased(t)
    ensures Inv(o, t)
  {
    hide Active, Undecided, Identified, Cached, RanOnce, Accounted, WithinLimits, Permitted, Phased;
    MovesKeepCore(o, s, t);
  }

  lemma SamePlaces(s: System, t: System)
    requires t.gate.queue == s.gate.queue && t.workers == s.workers && t.abandoned == s.abandoned
    ensures Active(t) == Active(s) && Undecided(t) == Undecided(s)
  {}

  lemma HeadMoves(queue: seq<WorkItem>)
    requires queue != []
    ensures multiset(queue) == multiset{queue[0]} + multiset(queue[1..])
  {
    assert queue == [queue[0]] + queue[1..];
  }

  lemma MovedOver<T>(q: multiset<T>, g: multiset<T>, a: multiset<T>, x: multiset<T>, rest: multiset<T>, g': multiset<T>)
    requires q == x + rest && g' == g + x
    ensures rest + g' + a == q + g + a
  {}

  lemma DequeuedMoves(o: Options, s: System, w: nat)
    requires ValidLimits(o.limits) && w < |s.workers| && s.workers[w].Holding?
    ensures Active(Next(o, s, Dequeued(w))) == Active(s) && Undecided(Next(o, s, Dequeued(w))) == Undecided(s)
  {
    var t := Next(o, s, Dequeued(w));
    hide Gathered;
    if s.gate.queue == [] {
      GatheredCases(s.workers, HeldBy, w, Waiting);
      GatheredCases(s.workers, UndecidedBy, w, Waiting);
    } else {
      DequeuedItemMoves(s, t, w);
    }
  }

  lemma DequeuedItemMoves(s: System, t: System, w: nat)
    requires w < |s.workers| && s.workers[w].Holding? && s.gate.queue != []
    requires t.workers == s.workers[w := Deciding(s.gate.queue[0])] && t.gate.queue == s.gate.queue[1..]
    requires t.abandoned == s.abandoned
    ensures Active(t) == Active(s) && Undecided(t) == Undecided(s)
  {
    hide Gathered;
    var x := Deciding(s.gate.queue[0]);
    GatheredCases(s.workers, HeldBy, w, x);
    GatheredCases(s.workers, UndecidedBy, w, x);
    HeadMoves(s.gate.queue);
    var q, item, rest := multiset(s.gate.queue), multiset{s.gate.queue[0]}, multiset(s.gate.queue[1..]);
    MovedOver(q, Gathered(s.workers, HeldBy), multiset(s.abandoned), item, rest, Gathered(t.workers, HeldBy));
    MovedOver(q, Gathered(s.workers, UndecidedBy), multiset(s.abandoned), item, rest, Gathered(t.workers, UndecidedBy));
  }

  lemma DequeuedKeeps(o: Options, s: System, w: nat)
    requires Inv(o, s) && Enabled(s, Dequeued(w))
    ensures Inv(o, Next(o, s, Dequeued(w)))
  {
    hide Active, Undecided, Identified, Cached, RanOnce, Accounted, WithinLimits, Permitted, Phased;
    var t := Next(o, s, Dequeued(w));
    DequeuedMoves(o, s, w);
    CountsQueue(s.gate);
    if !s.gate.disposed { HolderFindsWork(s, w); }
    PermitsMove(s, t, w, t.workers[w]);
    PhaseStays(s, t, w, t.workers[w]);
    DequeueAccounts(o.limits, s.gate);
    MoveKeeps(o, s, t);
  }

  /** No lost wake-up: until disposal a worker that took a permit finds a request. */
  lemma HolderFindsWork(s: System, w: nat)
    requires Permitted(s) && !s.gate.disposed && w < |s.workers| && s.workers[w].Holding?
    ensures s.gate.queue != []
  {
    TotalUpdate(s.workers, HoldsPermit, w, Waiting);
  }

  lemma CountsQueue(g: Gate)
    requires Accounted(g)
    ensures g.globalCount == |g.queue| && (g.disposed ==> g.queue == [])
  {}

  lemma DecidedKeeps(o: Options, s: System, w: nat, env: Environment)
    requires Inv(o, s) && Enabled(s, Decided(w, env))
    ensures Inv(o, Next(o, s, Decided(w, env)))
  {
    hide Inv, Decide, Refused;
    assert ValidLimits(o.limits) by { InvLimits(o, s); }
    var item := s.workers[w].item;
    match Decide(item, env)
    case Some(refusal) =>
      WorkerStepKeeps(o, s, Next(o, s, Decided(w, env)), w, Responding(item, Refused(o, item, refusal)));
    case None => ExecutionStartKeeps(o, s, Next(o, s, Decided(w, env)), w);
  }

  lemma ExecutionStartKeeps(o: Options, s: System, t: System, w: nat)
    requires Inv(o, s) && w < |s.workers| && s.workers[w].Deciding?
    requires t == s.(workers := s.workers[w := Executing(s.workers[w].item)], executed := s.executed +
        [s.workers[w].item.id])
    ensures Inv(o, t)
  {
    hide Active, Undecided, Identified, Cached, RanOnce, Accounted, WithinLimits, Permitted, Phased;
    var item, x := s.workers[w].item, Executing(s.workers[w].item);
    WorkerMoves(s, t, w, x);
    WorkerDecides(s, t, w, x);
    PermitsMove(s, t, w, x);
    PhaseStays(s, t, w, x);
    assert item in UndecidedBy(s.workers[w]);
    UndecidedIsActive(s);
    ExecuteRunsOnce(Undecided(s), Active(s), s.accepted, s.results, s.executed, item);
  }

  lemma ExecutedKeeps(o: Options, s: System, w: nat, outcome: Outcome)
    requires Inv(o, s) && Enabled(s, Executed(w, outcome))
    ensures Inv(o, Next(o, s, Executed(w, outcome)))
  {
    hide Inv, ResponseFor;
    assert ValidLimits(o.limits) by { InvLimits(o, s); }
    var item := s.workers[w].item;
    WorkerStepKeeps(o, s, Next(o, s, Executed(w, outcome)), w,
      Responding(item, ResponseFor(o, item, ResultOf(outcome))));
  }

  /** Publishing the response of an active request. */
  lemma FinishKeepsCore(o: Options, s: System, t: System, item: WorkItem, response: Response)
    requires Inv(o, s) && item in Active(s) && Active(t) == Active(s) - multiset{item} && Undecided(t) <= Undecided(s)
    requires t.gate == Complete(o.limits, s.gate, item) && t.results == TrySetResult(s.results, item.id, response)
    requires t.accepted == s.accepted && t.executed == s.executed
    ensures Core(o, t) && Accounted(t.gate) && WithinLimits(o.limits, t.gate)
    ensures t.gate.queue == s.gate.queue && t.gate.disposed == s.gate.disposed
  {
    hide Active, Undecided, Identified, Cached, Accounted, WithinLimits;
    FinishIdentifies(Active(s), s.accepted, s.results, item, response);
    FinishCaches(o, Active(s), s.accepted, s.results, s.gate.cache, s.gate.completed, item, response);
    CompleteNeverEvicts(o, s, item);
    CompleteAccounts(o.limits, s.gate, item);
  }

  lemma RespondedKeeps(o: Options, s: System, w: nat)
    requires Inv(o, s) && Enabled(s, Responded(w))
    ensures Inv(o, Next(o, s, Responded(w)))
  {
    hide Active, Undecided, Identified, Cached, RanOnce, Accounted, WithinLimits, Permitted, Phased, Complete,
        TrySetResult;
    var t := Next(o, s, Responded(w));
    var item := s.workers[w].item;
    assert HeldBy(s.workers[w]) == multiset{item};
    CompleteQueue(o.limits, s.gate, item);
    PermitsMove(s, t, w, Waiting);
    PhaseStays(s, t, w, Waiting);
    WorkerMoves(s, t, w, Waiting);
    WorkerDecides(s, t, w, Waiting);
    FinishKeepsCore(o, s, t, item, s.workers[w].response);
  }

  lemma CompleteQueue(l: Limits, g: Gate, item: WorkItem)
    ensures Complete(l, g, item).queue == g.queue && Complete(l, g, item).disposed == g.disposed
  {}

  lemma DisposedKeeps(o: Options, s: System)
    requires Inv(o, s) && Enabled(s, Disposed)
    ensures Inv(o, Next(o, s, Disposed))
  {
    hide Identified, Cached, RanOnce, Accounted, WithinLimits, Total, Gathered;
    var t := Next(o, s, Disposed);
    assert s.abandoned == [];
    MovesKeepCore(o, s, t);
    DisposeAccounts(o.limits, s.gate);
  }

  lemma TakenFromEnd<T>(a: multiset<T>, b: multiset<T>, c: multiset<T>, x: multiset<T>, rest: multiset<T>)
    requires c == x + rest
    ensures a + b + rest == a + b + c - x && x <= a + b + c
  {}

  lemma AbandonedMoves(s: System, t: System)
    requires s.abandoned != [] && t.abandoned == s.abandoned[1..] && t.gate.queue == s.gate.queue
    requires t.workers == s.workers
    ensures s.abandoned[0] in Active(s)
    ensures Active(t) == Active(s) - multiset{s.abandoned[0]} && Undecided(t) == Undecided(s) - multiset{s.abandoned[0]}
  {
    hide Gathered;
    HeadMoves(s.abandoned);
    var q, x, rest := multiset(s.gate.queue), multiset{s.abandoned[0]}, multiset(s.abandoned[1..]);
    TakenFromEnd(q, Gathered(s.workers, HeldBy), multiset(s.abandoned), x, rest);
    TakenFromEnd(q, Gathered(s.workers, UndecidedBy), multiset(s.abandoned), x, rest);
  }

  lemma AbandonedKeeps(o: Options, s: System)
    requires Inv(o, s) && Enabled(s, AbandonedNext)
    ensures Inv(o, Next(o, s, AbandonedNext))
  {
    hide Active, Undecided, Identified, Cached, RanOnce, Accounted, WithinLimits, Total, Complete;
    var t := Next(o, s, AbandonedNext);
    var item := s.abandoned[0];
    CompleteQueue(o.limits, s.gate, item);
    AbandonedMoves(s, t);
    FinishKeepsCore(o, s, t, item, Stopped(item));
  }

  lemma SubmittedKeeps(o: Options, s: System, player: Player, request: Request)
    requires Inv(o, s)
    ensures Inv(o, Next(o, s, Submitted(player, request)))
  {
    hide Accounted, WithinLimits, Trim, Active, Undecided, KeyOf, Identified, Cached, RanOnce;
    var t := Next(o, s, Submitted(player, request));
    var item := Offered(s, player, request);
    SubmitAccounts(o.limits, s.gate, item, o.fingerprint(request));
    if Submit(o.limits, s.gate, item, o.fingerprint(request)).1 == Accepted {
      AcceptedKeepsCore(o, s, t, item);
    } else {
      RejectedKeepsCore(o, s, t);
    }
  }

  lemma RejectedKeepsCore(o: Options, s: System, t: System)
    requires Inv(o, s)
    requires (t.gate.cache, t.gate.completed) == (s.gate.cache, s.gate.completed)
      || (t.gate.cache, t.gate.completed) == Trim(s.gate.cache, s.gate.completed, o.limits.maxEntries - 1)
    requires t.gate.queue == s.gate.queue && t.workers == s.workers && t.abandoned == s.abandoned
    requires t.accepted == s.accepted && t.results == s.results && t.executed == s.executed
    ensures Core(o, t)
  {
    hide Accounted, WithinLimits, Trim, Active, Undecided, Identified, Cached, RanOnce;
    NoResultsForActive(o, s);
    TrimKeepsCached(o, Active(s), s.accepted, s.results, s.gate.cache, s.gate.completed, o.limits.maxEntries - 1);
    SamePlaces(s, t);
  }

  lemma AcceptedKeepsCore(o: Options, s: System, t: System, item: WorkItem)
    requires Inv(o, s) && item.id == |s.accepted| && KeyOf(item) !in s.gate.cache
    requires var (cache, completed) := Trim(s.gate.cache, s.gate.completed, o.limits.maxEntries - 1);
      && t.gate.cache == cache[KeyOf(item) := Entry(o.fingerprint(item.request), item.id)] &&
          t.gate.completed == completed
    requires t.gate.queue == s.gate.queue + [item] && t.workers == s.workers && t.abandoned == s.abandoned
    requires t.accepted == s.accepted + [item] && t.results == s.results && t.executed == s.executed
    ensures Core(o, t)
  {
    hide Identified, RanOnce, Accounted, WithinLimits, Trim, Active, Undecided, Cached, Permitted, Phased, KeyOf;
    var trimmed := Trim(s.gate.cache, s.gate.completed, o.limits.maxEntries - 1);
    AcceptedIsCached(o, s, item, trimmed.0, trimmed.1);
    AppendPlaces(s, t, item);
    AcceptIdentifies(Active(s), s.accepted, s.results, item);
    AcceptRuns(Undecided(s), s.accepted, s.executed, item);
  }

  lemma AcceptedIsCached(o: Options, s: System, item: WorkItem, cache: map<Key, Entry>, completed: seq<Key>)
    requires Inv(o, s) && item.id == |s.accepted| && KeyOf(item) !in s.gate.cache
    requires (cache, completed) == Trim(s.gate.cache, s.gate.completed, o.limits.maxEntries - 1)
    ensures Cached(o, Active(s) + multiset{item}, s.accepted + [item], s.results,
                   cache[KeyOf(item) := Entry(o.fingerprint(item.request), item.id)], completed)
  {
    hide Identified, RanOnce, Accounted, WithinLimits, Trim, Active, Undecided, Cached, Permitted, Phased, KeyOf;
    NoResultsForActive(o, s);
    TrimmedIsCached(o, Active(s), s.accepted, s.results, s.gate.cache, s.gate.completed, cache, completed, KeyOf(item),
      o.limits.maxEntries - 1);
    AcceptCaches(o, Active(s), s.accepted, s.results, cache, completed, item);
  }

  lemma TrimmedIsCached(o: Options, active: multiset<WorkItem>, accepted: seq<WorkItem>, results: Results,
                        cache: map<Key, Entry>, completed: seq<Key>,
                        c: map<Key, Entry>, d: seq<Key>, key: Key, keep: nat)
    requires Cached(o, active, accepted, results, cache, completed) && (forall x :: x in active ==> x.id !in results)
    requires (c, d) == Trim(cache, completed, keep) && key !in cache
    ensures Cached(o, active, accepted, results, c, d) && key !in c
  {
    hide Cached, Trim;
    TrimKeepsCached(o, active, accepted, results, cache, completed, keep);
  }

  lemma NoResultsForActive(o: Options, s: System)
    requires Inv(o, s)
    ensures forall x :: x in Active(s) ==> x.id !in s.results
  {}

  lemma AppendPlaces(s: System, t: System, item: WorkItem)
    requires t.gate.queue == s.gate.queue + [item] && t.workers == s.workers && t.abandoned == s.abandoned
    ensures Active(t) == Active(s) + multiset{item} && Undecided(t) == Undecided(s) + multiset{item}
  {
    hide Gathered;
    assert multiset(t.gate.queue) == multiset(s.gate.queue) + multiset{item};
  }

  lemma AcceptRuns(undecided: multiset<WorkItem>, accepted: seq<WorkItem>, executed: seq<nat>, item: WorkItem)
    requires RanOnce(undecided, accepted, executed) && item.id == |accepted|
    ensures RanOnce(undecided + multiset{item}, accepted + [item], executed)
  {}

  /** Every step of every interleaving keeps the invariant. */
  lemma StepKeepsInv(o: Options, s: System, e: Event)
    requires Inv(o, s) && Enabled(s, e)
    ensures Inv(o, Next(o, s, e))
  {
    hide Inv, Next;
    assert ValidLimits(o.limits) by { InvLimits(o, s); }
    match e
    case Submitted(player, request) => SubmittedKeeps(o, s, player, request);
    case Dequeued(w) => DequeuedKeeps(o, s, w);
    case Decided(w, env) => DecidedKeeps(o, s, w, env);
    case Executed(w, outcome) => ExecutedKeeps(o, s, w, outcome);
    case Responded(w) => RespondedKeeps(o, s, w);
    case Disposed => DisposedKeeps(o, s);
    case AbandonedNext => AbandonedKeeps(o, s);
    case TookPermit(_) => WaitingKeeps(o, s, e);
    case WorkerEnded(_) => WaitingKeeps(o, s, e);
    case StopSignalled => SignalKeeps(o, s);
  }

  lemma InvLimits(o: Options, s: System)
    requires Inv(o, s)
    ensures ValidLimits(o.limits)
  {}
}
