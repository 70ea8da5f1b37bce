/** Results over whole runs of the relay authority. */
module RelayRuns {
  import opened Prelude
  import opened RelayGate
  import opened Relay
  import opened RelaySafety

  // ----- runs -----

  ghost predicate IsRun(o: Options, s: System, events: seq<Event>)
    requires ValidLimits(o.limits)
    decreases |events|
  {
    events == [] || (Enabled(s, events[0]) && IsRun(o, Next(o, s, events[0]), events[1..]))
  }

  function After(o: Options, s: System, events: seq<Event>): System
    requires ValidLimits(o.limits) && IsRun(o, s, events)
    decreases |events|
  {
    if events == [] then s else After(o, Next(o, s, events[0]), events[1..])
  }

  lemma {:induction false} RunKeepsInv(o: Options, s: System, events: seq<Event>)
    requires Inv(o, s) && IsRun(o, s, events)
    ensures Inv(o, After(o, s, events))
    decreases |events|
  {
    InvLimits(o, s);
    hide Inv, Next;
    if events != [] {
      StepKeepsInv(o, s, events[0]);
      RunKeepsInv(o, Next(o, s, events[0]), events[1..]);
    }
  }

  /** The executor is called at most once for each accepted request, in every run. */
  lemma AtMostOnce(o: Options, workers: nat, events: seq<Event>)
    requires ValidLimits(o.limits) && IsRun(o, Initial(workers), events)
    ensures Distinct(After(o, Initial(workers), events).executed)
  {
    hide Next;
    InitialInv(o, workers);
    RunKeepsInv(o, Initial(workers), events);
  }

  /** Counters, bounds and the semaphore agree in every run. */
  lemma AlwaysAccounted(o: Options, workers: nat, events: seq<Event>)
    requires ValidLimits(o.limits) && IsRun(o, Initial(workers), events)
    ensures var s := After(o, Initial(workers), events);
      && Accounted(s.gate) && WithinLimits(o.limits, s.gate)
      && (!s.gate.disposed ==> s.permits + Total(s.workers, HoldsPermit) == |s.gate.queue|)
  {
    hide Next, Accounted, WithinLimits;
    InitialInv(o, workers);
    RunKeepsInv(o, Initial(workers), events);
  }

  // ----- responses -----

  /** Only a worker's response and disposal answer a request, each the first to do so. */
  lemma AnsweredOnce(o: Options, s: System, e: Event)
    requires Inv(o, s) && Enabled(s, e)
    ensures match e
      case Responded(w) =>
        (s.workers[w].item.id !in s.results
        && Next(o, s, e).results == s.results[s.workers[w].item.id := s.workers[w].response])
      case AbandonedNext =>
        (s.abandoned[0].id !in s.results
        && Next(o, s, e).results == s.results[s.abandoned[0].id := Stopped(s.abandoned[0])])
      case _ => Next(o, s, e).results == s.results
  {
    InvLimits(o, s);
    ResultsAfter(o, s, e);
    hide Inv, Active, Next;
    match e
    case Responded(w) =>
      HeldIsActive(s, w);
      ActiveIsUnanswered(o, s, s.workers[w].item);
    case AbandonedNext =>
      AbandonedIsActive(s);
      ActiveIsUnanswered(o, s, s.abandoned[0]);
    case _ =>
  }

  lemma ActiveIsUnanswered(o: Options, s: System, item: WorkItem)
    requires Inv(o, s) && item in Active(s)
    ensures item.id !in s.results
  {}

  /** Every response of `s` is a response of `t`, and the requests of `t` start with those of `s`. */
  ghost predicate Extends(s: System, t: System) {
    && (forall id :: id in s.results ==> id in t.results && t.results[id] == s.results[id])
    && s.accepted <= t.accepted
  }

  lemma ExtendsComposes(s: System, t: System, u: System)
    requires Extends(s, t) && Extends(t, u)
    ensures Extends(s, u)
  {}

  lemma StepExtends(o: Options, s: System, e: Event)
    requires ValidLimits(o.limits) && Enabled(s, e)
    ensures Extends(s, Next(o, s, e))
  {
    hide Submit, Dequeue, Complete;
  }

  /** A response, once given, is final, and accepted requests keep their ids. */
  lemma {:induction false} ResponsesAreFinal(o: Options, s: System, events: seq<Event>)
    requires ValidLimits(o.limits) && IsRun(o, s, events)
    ensures Extends(s, After(o, s, events))
    decreases |events|
  {
    if events != [] {
      StepExtends(o, s, events[0]);
      ResponsesAreFinal(o, Next(o, s, events[0]), events[1..]);
      ExtendsComposes(s, Next(o, s, events[0]), After(o, s, events));
    }
  }

  /** What every response must satisfy: it names its request, its code is safe and its payload is bounded. */
  ghost predicate Addressed(o: Options, item: WorkItem, r: Response) {
    && r.requestId == item.request.requestId && r.correlationId == item.request.correlationId && IsSafeCode(r.code)
    && (r.payload.Some? ==> o.payloadBytes(r.payload.value) <= o.limits.maxResponseBytes)
  }

  ghost predicate WellAnswered(o: Options, s: System) {
    && (forall w ::
        0 <= w < |s.workers| && s.workers[w].Responding? ==> Addressed(o, s.workers[w].item, s.workers[w].response))
    && (forall id :: id in s.results ==> id < |s.accepted| && Addressed(o, s.accepted[id], s.results[id]))
  }

  lemma ResponseAnswers(o: Options, item: WorkItem, result: OperationResult)
    ensures Addressed(o, item, ResponseFor(o, item, result)) && Addressed(o, item, Stopped(item))
  {
    SafeCodes();
  }

  lemma SafeCodes()
    ensures IsSafeCode("execution_failed") && IsSafeCode("service_unavailable") && IsSafeCode("response_too_large")
  {}

  lemma StepAnswersWell(o: Options, s: System, e: Event)
    requires Inv(o, s) && WellAnswered(o, s) && Enabled(s, e)
    ensures WellAnswered(o, Next(o, s, e))
  {
    hide Inv, Submit, Dequeue, Complete, Addressed, ResponseFor, Decide, Stopped, WellAnswered;
    InvLimits(o, s);
    match e
    case Responded(w) => HeldIsAccepted(o, s, w); WorkerAnswers(o, s, w);
    case AbandonedNext => AbandonedIsAccepted(o, s); StoppedAnswers(o, s);
    case _ => OtherStepAnswers(o, s, e);
  }

  lemma OtherStepAnswers(o: Options, s: System, e: Event)
    requires ValidLimits(o.limits) && WellAnswered(o, s) && Enabled(s, e) && !e.Responded? && !e.AbandonedNext?
    ensures WellAnswered(o, Next(o, s, e))
  {
    hide Submit, Dequeue, Complete, Addressed, ResponseFor, Decide;
    forall item, result ensures Addressed(o, item, ResponseFor(o, item, result)) { ResponseAnswers(o, item, result); }
  }

  lemma WorkerAnswers(o: Options, s: System, w: nat)
    requires ValidLimits(o.limits) && WellAnswered(o, s) && w < |s.workers| && s.workers[w].Responding?
    requires s.workers[w].item.id < |s.accepted| && s.accepted[s.workers[w].item.id] == s.workers[w].item
    ensures WellAnswered(o, Next(o, s, Responded(w)))
  {
    hide Complete, Addressed;
  }

  lemma StoppedAnswers(o: Options, s: System)
    requires ValidLimits(o.limits) && WellAnswered(o, s) && Enabled(s, AbandonedNext)
    requires s.abandoned[0].id < |s.accepted| && s.accepted[s.abandoned[0].id] == s.abandoned[0]
    ensures WellAnswered(o, Next(o, s, AbandonedNext))
  {
    hide Complete, Addressed, Stopped;
    ResponseAnswers(o, s.abandoned[0], OperationResult("", None, true));
  }

  lemma HeldIsActive(s: System, w: nat)
    requires w < |s.workers| && HeldBy(s.workers[w]) != multiset{}
    ensures s.workers[w].item in Active(s)
  {
    GatheredCases(s.workers, HeldBy, w, Waiting);
    assert s.workers[w].item in HeldBy(s.workers[w]);
  }

  lemma HeldIsAccepted(o: Options, s: System, w: nat)
    requires Inv(o, s) && w < |s.workers| && s.workers[w].Responding?
    ensures s.workers[w].item.id < |s.accepted| && s.accepted[s.workers[w].item.id] == s.workers[w].item
  {
    hide Cached, RanOnce, Accounted, WithinLimits, Permitted, Phased, Active;
    HeldIsActive(s, w);
  }

  lemma AbandonedIsAccepted(o: Options, s: System)
    requires Inv(o, s) && s.abandoned != []
    ensures s.abandoned[0].id < |s.accepted| && s.accepted[s.abandoned[0].id] == s.abandoned[0]
  {
    hide Cached, RanOnce, Accounted, WithinLimits, Permitted, Phased;
    assert s.abandoned[0] in Active(s);
  }

  lemma {:induction false} RunAnswersWell(o: Options, s: System, events: seq<Event>)
    requires Inv(o, s) && WellAnswered(o, s) && IsRun(o, s, events)
    ensures WellAnswered(o, After(o, s, events))
    decreases |events|
  {
    InvLimits(o, s);
    hide Inv, Next, WellAnswered;
    if events != [] {
      StepKeepsInv(o, s, events[0]);
      StepAnswersWell(o, s, events[0]);
      RunAnswersWell(o, Next(o, s, events[0]), events[1..]);
    }
  }

  // ----- retries -----

  /**
   A retry with the same fingerprint is given the accepted original, whose response, once there, is what it gets in
   every future.
   */
  lemma RetryGetsOriginal(o: Options, s: System, player: Player, request: Request, events: seq<Event>)
    requires Inv(o, s) && IsRun(o, s, events) && !s.gate.disposed
    requires var key := KeyOf(Offered(s, player, request));
        key in s.gate.cache && s.gate.cache[key].fingerprint == o.fingerprint(request)
    ensures var (gate, verdict) := Submit(o.limits, s.gate, Offered(s, player, request), o.fingerprint(request));
      var t := After(o, s, events);
      && gate == s.gate && verdict.Replay? && verdict.id < |s.accepted|
      && KeyOf(s.accepted[verdict.id]) == KeyOf(Offered(s, player, request))
      && o.fingerprint(s.accepted[verdict.id].request) == o.fingerprint(request)
      && (verdict.id in s.results ==> verdict.id in t.results && t.results[verdict.id] == s.results[verdict.id])
  {
    hide Identified, RanOnce, Accounted, WithinLimits, Permitted, Phased, Next, Active;
    ResponsesAreFinal(o, s, events);
  }

  /** A replayed response is the original but for the names of the retry; a cancelled retry gets none of it. */
  lemma ReplayNamesRetry(o: Options, item: WorkItem, original: Response, retry: Request, cancelled: bool)
    requires Addressed(o, item, original)
    ensures var r := ReplayOf(original, retry, cancelled);
      && Addressed(o, item.(request := retry), r)
      && (cancelled ==> r.code == "cancelled" && r.payload == None)
      && (!cancelled ==> (r.code, r.payload, r.retryable) == (original.code, original.payload, original.retryable))
  {}

  // ----- the cache -----

  /** Keys whose request has no response yet. */
  function ActiveKeys(s: System): set<Key> { set k | k in s.gate.cache && s.gate.cache[k].id !in s.results }

  lemma ActiveKeysAre(o: Options, s: System)
    requires Inv(o, s)
    ensures forall k :: k in ActiveKeys(s) <==> exists x :: x in Active(s) && KeyOf(x) == k
  {
    hide RanOnce, Accounted, WithinLimits, Permitted, Phased, Active;
    forall k | k in ActiveKeys(s) ensures exists x :: x in Active(s) && KeyOf(x) == k {
      assert s.accepted[s.gate.cache[k].id] in Active(s);
    }
  }

  lemma SubsetSize<T>(a: set<T>, b: set<T>)
    requires a <= b
    ensures |a| <= |b| && (|a| == |b| ==> a == b)
  {
    assert a + (b - a) == b;
  }

  lemma NoneCompleted(o: Options, s: System)
    requires Inv(o, s)
    ensures ActiveKeys(s) <= s.gate.cache.Keys && (ActiveKeys(s) == s.gate.cache.Keys ==> s.gate.completed == [])
  {
    assert s.gate.completed != [] ==> s.gate.completed[0] in s.gate.completed;
  }

  /** The retry cache refuses a request exactly when every slot is taken by a request without a response. */
  lemma CacheFullExactly(o: Options, s: System, player: Player, request: Request)
    requires Inv(o, s)
    requires Submit(o.limits, s.gate, Offered(s, player, request), o.fingerprint(request)).1 in {CacheFull, Accepted}
    ensures Submit(o.limits, s.gate, Offered(s, player, request), o.fingerprint(request)).1 == CacheFull
      <==> |ActiveKeys(s)| >= o.limits.maxEntries
  {
    hide Identified, RanOnce, Accounted, Permitted, Phased, Active, Trim, KeyOf, Cached;
    NoneCompleted(o, s);
    SubsetSize(ActiveKeys(s), s.gate.cache.Keys);
    TrimLeavesActive(o, s);
  }

  function Unanswered(cache: map<Key, Entry>,
                      results: Results): set<Key> { set k | k in cache && cache[k].id !in results }

  lemma TrimLeavesActive(o: Options, s: System)
    requires Inv(o, s)
    ensures var c := Trim(s.gate.cache, s.gate.completed, o.limits.maxEntries - 1).0;
      |c| >= o.limits.maxEntries <==> |ActiveKeys(s)| >= o.limits.maxEntries
  {
    hide Identified, RanOnce, Accounted, Permitted, Phased, Active, Trim, Cached;
    NoResultsForActive(o, s);
    assert ActiveKeys(s) == Unanswered(s.gate.cache, s.results);
    TrimLeavesUnanswered(o, Active(s), s.accepted, s.results, s.gate.cache, s.gate.completed, o.limits.maxEntries);
  }

  lemma TrimLeavesUnanswered(o: Options, active: multiset<WorkItem>, accepted: seq<WorkItem>, results: Results,
                          cache: map<Key, Entry>, completed: seq<Key>, slots: nat)
    requires Cached(o, active, accepted, results, cache, completed) && (forall x :: x in active ==> x.id !in results)
    requires slots > 0
    ensures |Trim(cache, completed, slots - 1).0| >= slots <==> |Unanswered(cache, results)| >= slots
  {
    hide Trim, Cached, Unanswered;
    var c, d := TrimSparesUnanswered(o, active, accepted, results, cache, completed, slots - 1);
    SubsetSize(Unanswered(cache, results), c.Keys);
    assert |c.Keys| == |c|;
  }

  lemma TrimSparesUnanswered(o: Options, active: multiset<WorkItem>, accepted: seq<WorkItem>, results: Results,
                          cache: map<Key, Entry>, completed: seq<Key>, keep: nat)
    returns (c: map<Key, Entry>, d: seq<Key>)
    requires Cached(o, active, accepted, results, cache, completed) && (forall x :: x in active ==> x.id !in results)
    ensures c == Trim(cache, completed, keep).0 && (|c| <= keep || d == [])
    ensures Unanswered(cache, results) <= c.Keys && (d == [] ==> c.Keys == Unanswered(cache, results))
  {
    hide Trim, Cached, Unanswered;
    TrimKeepsCached(o, active, accepted, results, cache, completed, keep);
    c, d := Trim(cache, completed, keep).0, Trim(cache, completed, keep).1;
    UnansweredIsKept(o, active, accepted, results, cache, c, d);
  }

  lemma UnansweredIsKept(o: Options, active: multiset<WorkItem>, accepted: seq<WorkItem>, results: Results,
                         cache: map<Key, Entry>, c: map<Key, Entry>, d: seq<Key>)
    requires Cached(o, active, accepted, results, c, d)
    requires forall k :: k in c ==> k in cache && c[k] == cache[k]
    requires forall k :: k in cache && cache[k].id !in results ==> k in c
    ensures Unanswered(cache, results) <= c.Keys && (d == [] ==> c.Keys == Unanswered(cache, results))
  {}

  /** A cached entry is never overwritten, and never evicted before its request has a response. */
  lemma EntriesStay(o: Options, s: System, e: Event, k: Key)
    requires Inv(o, s) && Enabled(s, e) && k in s.gate.cache
    ensures k in Next(o, s, e).gate.cache ==> Next(o, s, e).gate.cache[k] == s.gate.cache[k]
    ensures s.gate.cache[k].id !in s.results ==> k in Next(o, s, e).gate.cache
  {
    InvLimits(o, s);
    CacheAfter(o, s, e);
    hide Inv, Active, Submit, Complete, Next, HeldBy, KeyOf, Offered;
    if e.Submitted? {
      SubmissionKeepsEntry(o, s, e.player, e.request, k);
    } else {
      OtherStepsKeepCache(o, s, e);
    }
  }

  lemma SubmissionKeepsEntry(o: Options, s: System, player: Player, request: Request, k: Key)
    requires Inv(o, s) && k in s.gate.cache
    ensures var c := Submit(o.limits, s.gate, Offered(s, player, request), o.fingerprint(request)).0.cache;
      && (k in c ==> c[k] == s.gate.cache[k]) && (s.gate.cache[k].id !in s.results ==> k in c)
  {
    hide Inv, Submit;
    SubmitKeepsEntry(o, s, Offered(s, player, request), k);
  }

  lemma OtherStepsKeepCache(o: Options, s: System, e: Event)
    requires Inv(o, s) && Enabled(s, e)
    ensures e.Responded? ==> Complete(o.limits, s.gate, s.workers[e.w].item).cache == s.gate.cache
    ensures e.AbandonedNext? ==> Complete(o.limits, s.gate, s.abandoned[0]).cache == s.gate.cache
  {
    hide Inv, Active, Complete;
    if e.Responded? {
      HeldIsActive(s, e.w);
      CompleteKeepsCache(o, s, s.workers[e.w].item);
    } else if e.AbandonedNext? {
      AbandonedIsActive(s);
      CompleteKeepsCache(o, s, s.abandoned[0]);
    }
  }

  lemma CompleteKeepsCache(o: Options, s: System, item: WorkItem)
    requires Inv(o, s) && item in Active(s)
    ensures Complete(o.limits, s.gate, item).cache == s.gate.cache
  {
    CompleteNeverEvicts(o, s, item);
  }

  /** Which steps touch the cache, and how. */
  lemma CacheAfter(o: Options, s: System, e: Event)
    requires ValidLimits(o.limits) && Enabled(s, e)
    ensures Next(o, s, e).gate.cache ==
      match e
      case Submitted(player, request) =>
        Submit(o.limits, s.gate, Offered(s, player, request), o.fingerprint(request)).0.cache
      case Responded(w) => Complete(o.limits, s.gate, s.workers[w].item).cache
      case AbandonedNext => Complete(o.limits, s.gate, s.abandoned[0]).cache
      case _ => s.gate.cache
  {
    hide Submit, Complete;
  }

  /** Which steps answer requests. */
  lemma ResultsAfter(o: Options, s: System, e: Event)
    requires ValidLimits(o.limits) && Enabled(s, e)
    ensures Next(o, s, e).results ==
      match e
      case Responded(w) => TrySetResult(s.results, s.workers[w].item.id, s.workers[w].response)
      case AbandonedNext => TrySetResult(s.results, s.abandoned[0].id, Stopped(s.abandoned[0]))
      case _ => s.results
  {
    hide Submit, Complete, Dequeue, TrySetResult;
  }

  lemma TrimSpares(o: Options, active: multiset<WorkItem>, accepted: seq<WorkItem>, results: Results,
                   cache: map<Key, Entry>, completed: seq<Key>, keep: nat, k: Key)
    requires Cached(o, active, accepted, results, cache, completed) && (forall x :: x in active ==> x.id !in results)
    requires k in cache
    ensures var c := Trim(cache, completed, keep).0;
        (k in c ==> c[k] == cache[k]) && (cache[k].id !in results ==> k in c)
  {
    hide Trim, Cached;
    TrimKeepsCached(o, active, accepted, results, cache, completed, keep);
  }

  lemma SubmitKeepsEntry(o: Options, s: System, item: WorkItem, k: Key)
    requires Inv(o, s) && k in s.gate.cache
    ensures var c := Submit(o.limits, s.gate, item, o.fingerprint(item.request)).0.cache;
      && (k in c ==> c[k] == s.gate.cache[k]) && (s.gate.cache[k].id !in s.results ==> k in c)
  {
    hide Identified, RanOnce, Accounted, WithinLimits, Permitted, Phased, Active, Trim, KeyOf, Cached;
    NoResultsForActive(o, s);
    TrimSpares(o, Active(s), s.accepted, s.results, s.gate.cache, s.gate.completed, o.limits.maxEntries - 1, k);
  }

  lemma AbandonedIsActive(s: System)
    requires s.abandoned != []
    ensures s.abandoned[0] in Active(s)
  {}

  /** Whatever the executor is called for is the request its key is cached for: one call in an entry's lifetime. */
  lemma ExecutionIsCached(o: Options, s: System, e: Event)
    requires Inv(o, s) && Enabled(s, e)
    ensures var t := Next(o, s, e);
      t.executed == s.executed
      || (e.Decided? && Decide(s.workers[e.w].item, e.env) == None &&
          t.executed == s.executed + [s.workers[e.w].item.id]
          && s.workers[e.w].item.id !in s.executed
          && KeyOf(s.workers[e.w].item) in s.gate.cache &&
              s.gate.cache[KeyOf(s.workers[e.w].item)].id == s.workers[e.w].item.id)
  {
    hide Identified, Accounted, WithinLimits, Permitted, Phased, KeyOf, Submit, Dequeue, Complete, Decide, Active,
        Undecided;
    if e.Decided? {
      HeldIsActive(s, e.w);
      UndecidedIsThere(s, e.w);
    }
  }

  lemma UndecidedIsThere(s: System, w: nat)
    requires w < |s.workers| && s.workers[w].Deciding?
    ensures s.workers[w].item in Undecided(s)
  {
    GatheredCases(s.workers, UndecidedBy, w, Waiting);
    assert s.workers[w].item in UndecidedBy(s.workers[w]);
  }

  // ----- authorization -----

  /** The executor is called exactly for a live, authenticated, unrevoked request that an enabled policy permits. */
  lemma ExecutesExactlyWhenAllowed(item: WorkItem, env: Environment)
    ensures Decide(item, env) == None <==>
      && !env.cancelled && env.now < item.request.expiresAt
      && item.player.sessionId == item.request.sessionId != "" && item.player.playerId != ""
      && item.player.authenticated && item.player.authoritative
      && env.killSwitch == Answers(false) && env.revoked == Answers(false)
      && exists policy: Policy ::
          env.policy == Answers(Some(policy)) && policy.enabled && Permits(policy, item.request.operation)
  {
    if env.policy.Answers? && env.policy.value.Some? {
      var policy := env.policy.value.value;
      assert env.policy == Answers(Some(policy));
    }
  }

  // ----- progress -----

  function Weight(w: Worker): nat {
    match w
    case Ended => 0
    case Waiting => 1
    case Holding => 2
    case Responding(_, _) => 2
    case Executing(_) => 3
    case Deciding(_) => 4
  }

  /** Work left to the service once submissions pause. */
  function Remaining(s: System): nat {
    3 * |s.gate.queue| + 2 * s.permits + Total(s.workers, Weight) + |s.abandoned|
    + (if s.gate.disposed then 0 else 1) + (if s.stopping then 0 else 1)
  }

  /** Every step but a submission uses up work, so between submissions the service comes to rest. */
  lemma StepsUseUpWork(o: Options, s: System, e: Event)
    requires ValidLimits(o.limits) && Phased(s) && Enabled(s, e) && !e.Submitted?
    ensures Remaining(Next(o, s, e)) < Remaining(s)
  {
    hide Total, Complete, Decide, ResponseFor, Refused, TrySetResult, Phased;
    if e.Disposed? {
      assert s.abandoned == [] && !s.stopping by { NothingAbandoned(s); }
    } else if e.Responded? {
      CompleteQueue(o.limits, s.gate, s.workers[e.w].item);
      WorkerUsesUpWork(s, e.w, Waiting);
    } else if e.AbandonedNext? {
      CompleteQueue(o.limits, s.gate, s.abandoned[0]);
    } else if !e.StopSignalled? {
      WorkerUsesUpWork(s, e.w, Next(o, s, e).workers[e.w]);
    }
  }

  lemma NothingAbandoned(s: System)
    requires Phased(s) && !s.gate.disposed
    ensures s.abandoned == [] && !s.stopping
  {}

  lemma WorkerUsesUpWork(s: System, w: nat, x: Worker)
    requires w < |s.workers|
    ensures Total(s.workers[w := x], Weight) + Weight(s.workers[w]) == Total(s.workers, Weight) + Weight(x)
  {
    TotalUpdate(s.workers, Weight, w, x);
  }

  /** Nothing left to do but wait for a submission or disposal. */
  ghost predicate AtRest(s: System) { forall e :: Enabled(s, e) ==> e.Submitted? || e.Disposed? }

  lemma AtRestWorkers(s: System)
    requires AtRest(s) && Phased(s)
    ensures forall w :: 0 <= w < |s.workers| ==> s.workers[w].Waiting? || s.workers[w].Ended?
    ensures !s.gate.disposed && s.workers != [] ==> s.permits == 0
    ensures s.gate.disposed ==> s.abandoned == []
  {
    forall w | 0 <= w < |s.workers| ensures s.workers[w].Waiting? || s.workers[w].Ended? {
      assert !Enabled(s, Dequeued(w)) && !Enabled(s, Executed(w, Failed)) && !Enabled(s, Responded(w));
      assert !Enabled(s, Decided(w, Environment(0, true, Throws, Throws, Throws)));
    }
    assert !Enabled(s, TookPermit(0)) && !Enabled(s, StopSignalled) && !Enabled(s, AbandonedNext);
  }

  /** At rest every accepted request has its response: nothing is lost, disposed or not. */
  lemma AtRestAllAnswered(o: Options, s: System)
    requires Inv(o, s) && AtRest(s) && s.workers != []
    ensures forall id :: 0 <= id < |s.accepted| ==> id in s.results
  {
    hide AtRest, Cached, RanOnce, WithinLimits, Accounted, Identified, Active, Gathered, Total;
    AtRestWorkers(s);
    CountsQueue(s.gate);
    forall w | 0 <= w < |s.workers| ensures HeldBy(s.workers[w]) == multiset{} && HoldsPermit(s.workers[w]) == 0 {}
    TotalNothing(s.workers, HoldsPermit);
    NothingActive(s);
    NothingUnanswered(Active(s), s.accepted, s.results);
  }

  lemma NothingActive(s: System)
    requires s.gate.queue == [] && s.abandoned == []
    requires forall w :: 0 <= w < |s.workers| ==> HeldBy(s.workers[w]) == multiset{}
    ensures Active(s) == multiset{}
  {
    GatheredNothing(s.workers, HeldBy);
  }

  lemma NothingUnanswered(active: multiset<WorkItem>, accepted: seq<WorkItem>, results: Results)
    requires Identified(active, accepted, results) && active == multiset{}
    ensures forall id :: 0 <= id < |accepted| ==> id in results
  {}
}
