/** What a submission is answered and what becomes of it: every verdict, refusal and response by its reason. */
module RelayVerdicts {
  import opened Prelude
  import opened RelayGate
  import opened Relay
  import opened RelaySafety
  import opened RelayRuns

  // ----- verdicts -----

  /** The same player, session and idempotency key. */
  predicate SameKey(a: WorkItem, b: WorkItem) {
    && a.player.playerId == b.player.playerId && a.player.sessionId == b.player.sessionId
    && a.request.idempotencyKey == b.request.idempotencyKey
  }

  /** The retry cache still holds the accepted request `id`, and it has the key of the one offered. */
  ghost predicate CachedAs(s: System, item: WorkItem, id: nat) {
    && id < |s.accepted| && SameKey(s.accepted[id], item)
    && exists k :: k in s.gate.cache && s.gate.cache[k].id == id
  }

  ghost predicate IsNew(s: System, item: WorkItem) { forall id: nat :: !CachedAs(s, item, id) }

  predicate SameRequest(o: Options, s: System, id: nat, request: Request)
    requires id < |s.accepted|
  {
    o.fingerprint(s.accepted[id].request) == o.fingerprint(request)
  }

  lemma CachedAsEntry(o: Options, s: System, item: WorkItem)
    requires Inv(o, s)
    ensures forall id: nat ::
      CachedAs(s, item, id) <==> KeyOf(item) in s.gate.cache && s.gate.cache[KeyOf(item)].id == id
    ensures KeyOf(item) in s.gate.cache ==>
      var entry := s.gate.cache[KeyOf(item)];
      entry.id < |s.accepted| && entry.fingerprint == o.fingerprint(s.accepted[entry.id].request)
  {
    hide Identified, RanOnce, Accounted, WithinLimits, Permitted, Phased, Active;
    forall id: nat ensures CachedAs(s, item, id) <==>
        KeyOf(item) in s.gate.cache && s.gate.cache[KeyOf(item)].id == id {
      if CachedAs(s, item, id) {
        var k :| k in s.gate.cache && s.gate.cache[k].id == id;
        assert KeyOf(s.accepted[id]) == k;
      }
    }
  }

  /**
   The verdict on a submission, in terms of accepted requests: a cached one with the same key is replayed if it is the
   same request and conflicts if not; a new one is accepted unless a limit is reached.
   */
  lemma VerdictIs(o: Options, s: System, player: Player, request: Request)
    requires Inv(o, s)
    ensures var item := Offered(s, player, request);
      var verdict := Submit(o.limits, s.gate, item, o.fingerprint(request)).1;
      var roomy := |s.gate.queue| < o.limits.maxGlobalQueue;
      var polite := Queued(s.gate.queue, player.playerId) < o.limits.maxPlayerQueue;
      && (verdict == Stopping <==> s.gate.disposed)
      && (!s.gate.disposed ==>
            && (forall id: nat :: verdict == Replay(id) <==> CachedAs(s, item, id) && SameRequest(o, s, id, request))
            && (verdict == Conflict <==> exists id: nat :: CachedAs(s, item, id) && !SameRequest(o, s, id, request))
            && (verdict == GlobalFull <==> IsNew(s, item) && !roomy)
            && (verdict == PlayerFull <==> IsNew(s, item) && roomy && !polite)
            && (verdict == CacheFull <==>
                  IsNew(s, item) && roomy && polite && |ActiveKeys(s)| >= o.limits.maxEntries)
            && (verdict == Accepted <==>
                  IsNew(s, item) && roomy && polite && |ActiveKeys(s)| < o.limits.maxEntries))
  {
    var item := Offered(s, player, request);
    CountsAreQueued(o, s, player.playerId);
    CachedAsEntry(o, s, item);
    TrimLeavesActive(o, s);
    hide Inv, CachedAs, Trim, KeyOf, ActiveKeys;
    GateVerdict(o.limits, s.gate, item, o.fingerprint(request));
    hide Submit;
    if KeyOf(item) in s.gate.cache { assert CachedAs(s, item, s.gate.cache[KeyOf(item)].id); }
  }

  /** Which verdict the gate gives. */
  lemma GateVerdict(l: Limits, g: Gate, item: WorkItem, fingerprint: string)
    requires ValidLimits(l)
    ensures Submit(l, g, item, fingerprint).1 ==
      if g.disposed then Stopping
      else if KeyOf(item) in g.cache then
        (if g.cache[KeyOf(item)].fingerprint == fingerprint then Replay(g.cache[KeyOf(item)].id) else Conflict)
      else if g.globalCount >= l.maxGlobalQueue then GlobalFull
      else if CountFor(g.counts, item.player.playerId) >= l.maxPlayerQueue then PlayerFull
      else if |Trim(g.cache, g.completed, l.maxEntries - 1).0| >= l.maxEntries then CacheFull else Accepted
  {
    hide Trim, KeyOf, CountFor;
  }

  lemma CountsAreQueued(o: Options, s: System, player: string)
    requires Inv(o, s)
    ensures s.gate.globalCount == |s.gate.queue| && CountFor(s.gate.counts, player) == Queued(s.gate.queue, player)
    ensures ValidLimits(o.limits)
  {
    hide Identified, Cached, RanOnce, Permitted, Phased, Active;
  }

  /** An accepted request goes to the end of the queue under its own id; any other submission queues nothing. */
  lemma SubmissionQueues(l: Limits, g: Gate, item: WorkItem, fingerprint: string)
    requires ValidLimits(l)
    ensures var (gate, verdict) := Submit(l, g, item, fingerprint);
      if verdict == Accepted then
        gate.queue == g.queue + [item] && KeyOf(item) in gate.cache &&
          gate.cache[KeyOf(item)] == Entry(fingerprint, item.id)
      else gate == g.(cache := gate.cache, completed := gate.completed) && (verdict != CacheFull ==> gate == g)
  {
    hide Trim, KeyOf, CountFor;
  }

  // ----- order -----

  /** Requests wait in the order they were accepted. */
  ghost predicate InOrder(s: System) {
    && (forall i, j :: 0 <= i < j < |s.gate.queue| ==> s.gate.queue[i].id < s.gate.queue[j].id)
    && (forall i :: 0 <= i < |s.gate.queue| ==> s.gate.queue[i].id < |s.accepted|)
  }

  lemma StepKeepsOrder(o: Options, s: System, e: Event)
    requires ValidLimits(o.limits) && Enabled(s, e) && InOrder(s)
    ensures InOrder(Next(o, s, e))
  {
    hide Trim, Decide, ResponseFor, Refused, TrySetResult, Complete, Submit, KeyOf;
    if e.Submitted? {
      SubmissionQueues(o.limits, s.gate, Offered(s, e.player, e.request), o.fingerprint(e.request));
    }
    if e.Responded? { CompleteQueue(o.limits, s.gate, s.workers[e.w].item); }
    if e.AbandonedNext? { CompleteQueue(o.limits, s.gate, s.abandoned[0]); }
  }

  lemma {:induction false} RunKeepsOrder(o: Options, s: System, events: seq<Event>)
    requires ValidLimits(o.limits) && IsRun(o, s, events) && InOrder(s)
    ensures InOrder(After(o, s, events))
    decreases |events|
  {
    hide Next, InOrder;
    if events != [] {
      StepKeepsOrder(o, s, events[0]);
      RunKeepsOrder(o, Next(o, s, events[0]), events[1..]);
    }
  }

  /** In every run a worker takes the request that was accepted first of those that wait, and no other leaves. */
  lemma FirstComeFirstServed(o: Options, workers: nat, events: seq<Event>, w: nat)
    requires ValidLimits(o.limits) && IsRun(o, Initial(workers), events)
    requires Enabled(After(o, Initial(workers), events), Dequeued(w))
    ensures var s := After(o, Initial(workers), events); var t := Next(o, s, Dequeued(w));
      if s.gate.queue == [] then t.workers[w] == Waiting && t.gate.queue == []
      else
        t.workers[w].Deciding? && t.workers[w].item in s.gate.queue
        && (forall x :: x in s.gate.queue ==> t.workers[w].item.id <= x.id)
        && s.gate.queue == [t.workers[w].item] + t.gate.queue
  {
    RunKeepsOrder(o, Initial(workers), events);
    hide After, IsRun, Initial;
    var s := After(o, Initial(workers), events);
  }

  // ----- reasons -----

  const RETRYABLE: set<string> := {"cancelled", "request_expired", "kill_switch", "authorization_unavailable"}

  /** A refusal tells the truth, and may be retried exactly when its reason can pass. */
  lemma RefusalSays(item: WorkItem, env: Environment)
    requires Decide(item, env).Some?
    ensures var refusal := Decide(item, env).value;
      && (refusal.retryable <==> refusal.code in RETRYABLE)
      && (refusal.code == "cancelled" <==> env.cancelled)
      && (refusal.code == "request_expired" <==> !env.cancelled && item.request.expiresAt <= env.now)
      && (refusal.code == "identity_mismatch" ==> item.player.sessionId != item.request.sessionId)
      && (refusal.code == "unauthorized_transport" ==>
            !item.player.authenticated || !item.player.authoritative || item.player.sessionId == ""
            || item.player.playerId == "")
      && (refusal.code == "kill_switch" ==> env.killSwitch == Answers(true))
      && (refusal.code == "revoked" ==> env.killSwitch == Answers(false) && env.revoked == Answers(true))
      && (refusal.code == "authorization_unavailable" ==>
            env.killSwitch.Throws? || env.revoked.Throws? || env.policy.Throws? || env.policy.value.None?)
      && (refusal.code in {"bridge_disabled", "unsupported_operation", "permission_denied"} ==>
            env.policy.Answers? && env.policy.value.Some?
            && (refusal.code == "bridge_disabled" <==> !env.policy.value.value.enabled)
            && (refusal.code == "unsupported_operation" ==>
                  item.request.operation !in {"discovery.read", "ic10.read", "ic10.write"})
            && !(env.policy.value.value.enabled && Permits(env.policy.value.value, item.request.operation)))
      && refusal.code in {"cancelled", "request_expired", "identity_mismatch", "unauthorized_transport", "kill_switch",
           "revoked", "authorization_unavailable", "bridge_disabled", "unsupported_operation", "permission_denied"}
  {}

  predicate Fits(o: Options, result: OperationResult) {
    result.payload.None? || o.payloadBytes(result.payload.value) <= o.limits.maxResponseBytes
  }

  /** What the executor returned is what the request is answered, unless it is too large or its code is not safe. */
  lemma AnswerIsOutcome(o: Options, item: WorkItem, outcome: Outcome)
    ensures var r := ResponseFor(o, item, ResultOf(outcome));
      match outcome
      case Returned(result) =>
        (if !Fits(o, result) then (r.code, r.payload, r.retryable) == ("response_too_large", None, false)
         else
           r.payload == result.payload && r.retryable == result.retryable
           && r.code == if IsSafeCode(result.code) then result.code else "execution_failed")
      case WasCancelled => (r.code, r.payload, r.retryable) == ("cancelled", None, true)
      case _ => (r.code, r.payload, r.retryable) == ("execution_failed", None, true)
    ensures (Stopped(item).code, Stopped(item).payload, Stopped(item).retryable) == ("service_unavailable", None, true)
  {
    SafeCodes();
    assert IsSafeCode("cancelled");
  }
}
