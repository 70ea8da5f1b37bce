/**
 The state behind the relay authority's lock, each lock region as one atomic
 change of it, and the service object whose methods make those changes.
 */
module RelayGate {
  import opened Prelude

  datatype Player = Player(playerId: string, sessionId: string, authenticated: bool, authoritative: bool)

  datatype Request = Request(requestId: string, correlationId: string, idempotencyKey: string, operation: string,
                             sessionId: string, payload: string, expiresAt: int)

  datatype Key = Key(playerId: string, sessionId: string, value: string)

  /** A queued request; `id` names its completion source. */
  datatype WorkItem = WorkItem(id: nat, player: Player, request: Request)

  function KeyOf(item: WorkItem): Key { Key(item.player.playerId, item.player.sessionId, item.request.idempotencyKey) }

  datatype Entry = Entry(fingerprint: string, id: nat)

  datatype Response = Response(requestId: string, correlationId: string, code: string, payload: Option<string>,
    retryable: bool)

  datatype Limits = Limits(maxGlobalQueue: nat, maxPlayerQueue: nat, maxEntries: nat, maxResponseBytes: nat)

  /** The options the constructor accepts. */
  predicate ValidLimits(l: Limits) { l.maxGlobalQueue >= 1 && l.maxPlayerQueue >= 1 && l.maxEntries >= 1 &&
    l.maxResponseBytes >= 1 }

  datatype Gate = Gate(queue: seq<WorkItem>, counts: map<string, int>, cache: map<Key, Entry>, completed: seq<Key>,
                       globalCount: int, disposed: bool)

  const Open: Gate := Gate([], map[], map[], [], 0, false)

  datatype Verdict = Stopping | Replay(id: nat) | Conflict | GlobalFull | PlayerFull | CacheFull | Accepted

  // ----- lock regions -----

  /** Drop the oldest completed entries while more than `keep` entries are cached. */
  function Trim(cache: map<Key, Entry>, completed: seq<Key>, keep: nat): (r: (map<Key, Entry>, seq<Key>))
    ensures |r.0| <= |cache|
    decreases |completed|
  {
    if |cache| > keep && completed != [] then
      RemoveShrinks(cache, completed[0]);
      Trim(cache - {completed[0]}, completed[1..], keep)
    else (cache, completed)
  }

  lemma RemoveShrinks<K, V>(m: map<K, V>, k: K)
    ensures |m - {k}| == |m| - if k in m then 1 else 0
  {
    if k in m {
      assert m.Keys == (m - {k}).Keys + {k};
      assert |m.Keys| == |m| && |(m - {k}).Keys| == |m - {k}|;
    } else {
      assert m - {k} == m;
    }
  }

  function CountFor(counts: map<string, int>, player: string): int { if player in counts then counts[player] else 0 }

  function Submit(l: Limits, g: Gate, item: WorkItem, fingerprint: string): (Gate, Verdict)
    requires ValidLimits(l)
  {
    var key, player := KeyOf(item), item.player.playerId;
    if g.disposed then (g, Stopping)
    else if key in g.cache then
      (g, if g.cache[key].fingerprint == fingerprint then Replay(g.cache[key].id) else Conflict)
    else if g.globalCount >= l.maxGlobalQueue then (g, GlobalFull)
    else if CountFor(g.counts, player) >= l.maxPlayerQueue then (g, PlayerFull)
    else
      var (cache, completed) := Trim(g.cache, g.completed, l.maxEntries - 1);
      if |cache| >= l.maxEntries then (g.(cache := cache, completed := completed), CacheFull)
      else
        (Gate(g.queue + [item], g.counts[player := CountFor(g.counts, player) + 1],
              cache[key := Entry(fingerprint, item.id)], completed, g.globalCount + 1, false), Accepted)
  }

  /** A worker takes the oldest request, if there is one. */
  function Dequeue(g: Gate): (Gate, Option<WorkItem>) {
    if g.queue == [] then (g, None)
    else
      var player := g.queue[0].player.playerId;
      var remaining := CountFor(g.counts, player) - 1;
      (g.(queue := g.queue[1..], globalCount := g.globalCount - 1,
          counts := if remaining == 0 then g.counts - {player} else g.counts[player := remaining]),
       Some(g.queue[0]))
  }

  function Complete(l: Limits, g: Gate, item: WorkItem): Gate {
    var key := KeyOf(item);
    if key in g.cache && g.cache[key].id == item.id then
      var (cache, completed) := Trim(g.cache, g.completed + [key], l.maxEntries);
      g.(cache := cache, completed := completed)
    else g
  }

  function Dispose(g: Gate): (Gate, seq<WorkItem>) {
    if g.disposed then (g, []) else (g.(disposed := true, queue := [], globalCount := 0, counts := map[]), g.queue)
  }

  type Results = map<nat, Response>

  /** Only the first response of a completion source counts. */
  function TrySetResult(results: Results, id: nat, response: Response): Results {
    if id in results then results else results[id := response]
  }

  // ----- accounting -----

  function Queued(queue: seq<WorkItem>, player: string): nat {
    if queue == [] then 0 else Queued(queue[1..], player) + if queue[0].player.playerId == player then 1 else 0
  }

  lemma {:induction false} QueuedAppend(queue: seq<WorkItem>, item: WorkItem, player: string)
    ensures Queued(queue + [item], player) == Queued(queue, player) + if item.player.playerId == player then 1 else 0
  {
    if queue == [] {
      assert [item][1..] == [] && queue + [item] == [item];
    } else {
      assert (queue + [item])[1..] == queue[1..] + [item];
      QueuedAppend(queue[1..], item, player);
    }
  }

  /** The counters agree with the queue, and a player without queued requests has no counter. */
  ghost predicate Accounted(g: Gate) {
    && g.globalCount == |g.queue|
    && (forall player :: CountFor(g.counts, player) == Queued(g.queue, player))
    && (forall player :: player in g.counts ==> g.counts[player] > 0)
    && (g.disposed ==> g.queue == [])
  }

  ghost predicate WithinLimits(l: Limits, g: Gate) {
    && |g.queue| <= l.maxGlobalQueue && |g.cache| <= l.maxEntries
    && (forall player :: Queued(g.queue, player) <= l.maxPlayerQueue)
  }

  /** The dictionary lookup of a dequeue never fails. */
  lemma QueuedPlayerIsCounted(g: Gate)
    requires Accounted(g) && g.queue != []
    ensures g.queue[0].player.playerId in g.counts
  {
    assert Queued(g.queue, g.queue[0].player.playerId) > 0;
  }

  lemma SubmitAccounts(l: Limits, g: Gate, item: WorkItem, fingerprint: string)
    requires ValidLimits(l) && Accounted(g) && WithinLimits(l, g)
    ensures var g' := Submit(l, g, item, fingerprint).0; Accounted(g') && WithinLimits(l, g')
  {
    var (g', verdict) := Submit(l, g, item, fingerprint);
    if verdict == Accepted {
      forall player ensures CountFor(g'.counts, player) == Queued(g'.queue, player) <= l.maxPlayerQueue {
        QueuedAppend(g.queue, item, player);
      }
      AddGrows(Trim(g.cache, g.completed, l.maxEntries - 1).0, KeyOf(item), Entry(fingerprint, item.id));
    }
  }

  lemma AddGrows<K, V>(m: map<K, V>, k: K, v: V)
    ensures |m[k := v]| <= |m| + 1
  {
    assert m[k := v].Keys == m.Keys + {k};
    assert |m.Keys| == |m| && |m[k := v].Keys| == |m[k := v]|;
  }

  lemma DequeueAccounts(l: Limits, g: Gate)
    requires Accounted(g) && WithinLimits(l, g)
    ensures var g' := Dequeue(g).0; Accounted(g') && WithinLimits(l, g')
  {
    if g.queue != [] {
      var g' := Dequeue(g).0;
      QueuedPlayerIsCounted(g);
      forall player ensures CountFor(g'.counts, player) == Queued(g'.queue, player) <= l.maxPlayerQueue {
        assert Queued(g.queue, player) <= l.maxPlayerQueue;
      }
    }
  }

  lemma CompleteAccounts(l: Limits, g: Gate, item: WorkItem)
    requires Accounted(g) && WithinLimits(l, g)
    ensures var g' := Complete(l, g, item); Accounted(g') && WithinLimits(l, g')
  {}

  lemma DisposeAccounts(l: Limits, g: Gate)
    requires Accounted(g) && WithinLimits(l, g)
    ensures var g' := Dispose(g).0; Accounted(g') && WithinLimits(l, g')
  {}

  // ----- the service object -----

  class RelayAuthority {
    const limits: Limits
    var queue: seq<WorkItem>
    var playerCounts: map<string, int>
    var idempotency: map<Key, Entry>
    var completedIdempotency: seq<Key>
    var globalCount: int
    var disposed: bool
    var available: nat
    var responses: Results

    ghost function State(): Gate
      reads this
    {
      Gate(queue, playerCounts, idempotency, completedIdempotency, globalCount, disposed)
    }

    ghost predicate Valid()
      reads this
    {
      ValidLimits(limits) && Accounted(State()) && WithinLimits(limits, State())
    }

    constructor (limits: Limits)
      requires ValidLimits(limits)
      ensures Valid() && this.limits == limits && State() == Open && available == 0 && responses == map[]
    {
      this.limits := limits;
      queue, playerCounts, idempotency, completedIdempotency := [], map[], map[], [];
      globalCount, disposed, available, responses := 0, false, 0, map[];
    }

    /** The lock region of a submission. */
    method Enter(item: WorkItem, fingerprint: string) returns (verdict: Verdict)
      requires Valid()
      modifies this
      ensures Valid() && responses == old(responses)
      ensures (State(), verdict) == Submit(limits, old(State()), item, fingerprint)
      ensures available == old(available) + if verdict == Accepted then 1 else 0
    {
      hide Accounted, WithinLimits, Trim;
      SubmitAccounts(limits, State(), item, fingerprint);
      var key, player := KeyOf(item), item.player.playerId;
      if disposed {
        return Stopping;
      } else if key in idempotency {
        return if idempotency[key].fingerprint == fingerprint then Replay(idempotency[key].id) else Conflict;
      } else if globalCount >= limits.maxGlobalQueue {
        return GlobalFull;
      }
      var playerCount := if player in playerCounts then playerCounts[player] else 0;
      if playerCount >= limits.maxPlayerQueue {
        return PlayerFull;
      }
      TrimCompleted(limits.maxEntries - 1);
      if |idempotency| >= limits.maxEntries {
        return CacheFull;
      }
      idempotency := idempotency[key := Entry(fingerprint, item.id)];
      queue := queue + [item];
      globalCount := globalCount + 1;
      playerCounts := playerCounts[player := playerCount + 1];
      available := available + 1;
      return Accepted;
    }

    method TrimCompleted(keep: nat)
      modifies this`idempotency, this`completedIdempotency
      ensures (idempotency, completedIdempotency) == Trim(old(idempotency), old(completedIdempotency), keep)
    {
      while |idempotency| > keep && |completedIdempotency| > 0
        invariant Trim(idempotency, completedIdempotency, keep) ==
            Trim(old(idempotency), old(completedIdempotency), keep)
        decreases |completedIdempotency|
      {
        idempotency := idempotency - {completedIdempotency[0]};
        completedIdempotency := completedIdempotency[1..];
      }
    }

    /** The lock region of a worker that has taken a permit. */
    method TakeNext() returns (item: Option<WorkItem>)
      requires Valid()
      modifies this
      ensures Valid() && available == old(available) && responses == old(responses)
      ensures (State(), item) == Dequeue(old(State()))
    {
      hide WithinLimits;
      DequeueAccounts(limits, State());
      item := None;
      if |queue| > 0 {
        QueuedPlayerIsCounted(State());
        item := Some(queue[0]);
        var player := queue[0].player.playerId;
        queue := queue[1..];
        globalCount := globalCount - 1;
        var remaining := playerCounts[player] - 1;
        if remaining == 0 { playerCounts := playerCounts - {player}; }
          else { playerCounts := playerCounts[player := remaining]; }
      }
    }

    /** The lock region that publishes a response. */
    method Finish(item: WorkItem, response: Response)
      requires Valid()
      modifies this
      ensures Valid() && available == old(available)
      ensures State() == Complete(limits, old(State()), item)
      ensures responses == TrySetResult(old(responses), item.id, response)
    {
      hide Accounted, WithinLimits, Trim;
      CompleteAccounts(limits, State(), item);
      if item.id !in responses { responses := responses[item.id := response]; }
      var key := KeyOf(item);
      if key in idempotency && idempotency[key].id == item.id {
        completedIdempotency := completedIdempotency + [key];
        TrimCompleted(limits.maxEntries);
      }
    }

    /** The lock region of disposal: the second call abandons nothing. */
    method Stop() returns (abandoned: seq<WorkItem>)
      requires Valid()
      modifies this
      ensures Valid() && available == old(available) && responses == old(responses)
      ensures (State(), abandoned) == Dispose(old(State()))
    {
      DisposeAccounts(limits, State());
      if disposed { return []; }
      disposed := true;
      abandoned := queue;
      queue := [];
      globalCount := 0;
      playerCounts := map[];
    }
  }
}
