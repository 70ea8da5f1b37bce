/**
 The relay authority as a state machine: submitters, workers behind a
 semaphore, completion and disposal, each lock region one atomic step and every
 interleaving allowed.
 */
module Relay {
  import opened Prelude
  import opened RelayGate

  // ----- deciding whether to execute -----

  datatype Policy = Policy(enabled: bool, administrator: bool, discoveryRead: bool, ic10Read: bool, ic10WriteAny: bool,
    ic10WriteOwn: bool)

  /** A consulted service answers or throws. */
  datatype Answer<T> = Answers(value: T) | Throws

  /** What a worker finds when it decides: the clock, the request's cancellation and the three consulted services. */
  datatype Environment = Environment(now: int, cancelled: bool, killSwitch: Answer<bool>, revoked: Answer<bool>,
    policy: Answer<Option<Policy>>)

  datatype Refusal = Refusal(code: string, retryable: bool)

  predicate Permits(policy: Policy, operation: string) {
    || (operation == "discovery.read" && (policy.administrator || policy.discoveryRead))
    || (operation == "ic10.read" && (policy.administrator || policy.ic10Read))
    || (operation == "ic10.write" && (policy.administrator || policy.ic10WriteAny))
  }

  function ValidateExecution(player: Player, request: Request, env: Environment): Option<Refusal> {
    if request.expiresAt <= env.now then Some(Refusal("request_expired", true))
    else if player.sessionId != request.sessionId then Some(Refusal("identity_mismatch", false))
    else if !player.authenticated || !player.authoritative then Some(Refusal("unauthorized_transport", false))
    else if player.sessionId == "" || player.playerId == "" then Some(Refusal("unauthorized_transport", false))
    else if env.killSwitch.Throws? then Some(Refusal("authorization_unavailable", true))
    else if env.killSwitch.value then Some(Refusal("kill_switch", true))
    else if env.revoked.Throws? then Some(Refusal("authorization_unavailable", true))
    else if env.revoked.value then Some(Refusal("revoked", false))
    else if env.policy.Throws? || env.policy.value.None? then Some(Refusal("authorization_unavailable", true))
    else
      var policy := env.policy.value.value;
      if !policy.enabled then Some(Refusal("bridge_disabled", false))
      else if request.operation != "discovery.read" && request.operation != "ic10.read" &&
        request.operation != "ic10.write" then
        Some(Refusal("unsupported_operation", false))
      else if request.operation == "discovery.read" && !policy.administrator && !policy.discoveryRead then
        Some(Refusal("permission_denied", false))
      else if request.operation == "ic10.read" && !policy.administrator && !policy.ic10Read then
        Some(Refusal("permission_denied", false))
      else if request.operation == "ic10.write" && !policy.administrator && !policy.ic10WriteAny then
        Some(Refusal("permission_denied", false))
      else None
  }

  function Decide(item: WorkItem, env: Environment): Option<Refusal> {
    if env.cancelled then Some(Refusal("cancelled", true)) else ValidateExecution(item.player, item.request, env)
  }

  // ----- responses -----

  datatype OperationResult = OperationResult(code: string, payload: Option<string>, retryable: bool)

  /** How the executor ends. */
  datatype Outcome = Returned(result: OperationResult) | ReturnedNothing | WasCancelled | Failed

  datatype Options = Options(limits: Limits, fingerprint: Request -> string, payloadBytes: string -> nat)

  predicate IsSafeCode(code: string) {
    code != [] && |code| <= 64 && forall i ::
      0 <= i < |code| ==> 'a' <= code[i] <= 'z' || '0' <= code[i] <= '9' || code[i] == '_'
  }

  function ResultOf(outcome: Outcome): OperationResult {
    match outcome
    case Returned(result) => result
    case ReturnedNothing => OperationResult("execution_failed", None, true)
    case WasCancelled => OperationResult("cancelled", None, true)
    case Failed => OperationResult("execution_failed", None, true)
  }

  function ResponseFor(o: Options, item: WorkItem, result: OperationResult): Response {
    var bounded :=
      if result.payload.Some? && o.payloadBytes(result.payload.value) > o.limits.maxResponseBytes then
        OperationResult("response_too_large", None, false)
      else result;
    Response(item.request.requestId, item.request.correlationId,
             if IsSafeCode(bounded.code) then bounded.code else "execution_failed", bounded.payload, bounded.retryable)
  }

  function Refused(o: Options, item: WorkItem, refusal: Refusal): Response {
    ResponseFor(o, item, OperationResult(refusal.code, None, refusal.retryable))
  }

  function Stopped(item: WorkItem): Response {
    Response(item.request.requestId, item.request.correlationId, "service_unavailable", None, true)
  }

  /** What a retry is answered, once the original has its response. */
  function ReplayOf(original: Response, retry: Request, cancelled: bool): Response {
    if cancelled then Response(retry.requestId, retry.correlationId, "cancelled", None, true)
    else original.(requestId := retry.requestId, correlationId := retry.correlationId)
  }

  // ----- the system -----

  datatype Worker =
    | Waiting
    | Holding                                   // a permit taken, nothing dequeued yet
    | Deciding(item: WorkItem)
    | Executing(item: WorkItem)
    | Responding(item: WorkItem, response: Response)
    | Ended

  /** `accepted` lists the accepted requests in order of their ids, `executed` the ids given to the executor. */
  datatype System = System(gate: Gate, permits: nat, results: Results, workers: seq<Worker>, abandoned: seq<WorkItem>,
                           stopping: bool, accepted: seq<WorkItem>, executed: seq<nat>)

  function Initial(workers: nat): System {
    System(Open, 0, map[], seq(workers, _ => Waiting), [], false, [], [])
  }

  datatype Event =
    | Submitted(player: Player, request: Request)
    | TookPermit(w: nat)
    | Dequeued(w: nat)
    | Decided(w: nat, env: Environment)
    | Executed(w: nat, outcome: Outcome)
    | Responded(w: nat)
    | WorkerEnded(w: nat)
    | Disposed
    | StopSignalled
    | AbandonedNext

  predicate Enabled(s: System, e: Event) {
    match e
    case Submitted(_, _) => true
    case TookPermit(w) => w < |s.workers| && s.workers[w].Waiting? && s.permits > 0
    case Dequeued(w) => w < |s.workers| && s.workers[w].Holding?
    case Decided(w, _) => w < |s.workers| && s.workers[w].Deciding?
    case Executed(w, _) => w < |s.workers| && s.workers[w].Executing?
    case Responded(w) => w < |s.workers| && s.workers[w].Responding?
    case WorkerEnded(w) => w < |s.workers| && s.workers[w].Waiting? && s.stopping
    case Disposed => !s.gate.disposed
    case StopSignalled => s.gate.disposed && !s.stopping
    case AbandonedNext => s.stopping && s.abandoned != []
  }

  /** The request a submission would queue. */
  function Offered(s: System, player: Player, request: Request): WorkItem { WorkItem(|s.accepted|, player, request) }

  function SubmitStep(o: Options, s: System, player: Player, request: Request): System
    requires ValidLimits(o.limits)
  {
    var item := Offered(s, player, request);
    var (gate, verdict) := Submit(o.limits, s.gate, item, o.fingerprint(request));
    if verdict == Accepted then s.(gate := gate, permits := s.permits + 1, accepted := s.accepted + [item])
    else s.(gate := gate)
  }

  function Next(o: Options, s: System, e: Event): System
    requires ValidLimits(o.limits) && Enabled(s, e)
  {
    match e
    case Submitted(player, request) => SubmitStep(o, s, player, request)
    case TookPermit(w) => s.(permits := s.permits - 1, workers := s.workers[w := Holding])
    case Dequeued(w) =>
      var (gate, item) := Dequeue(s.gate);
      s.(gate := gate, workers := s.workers[w := if item.Some? then Deciding(item.value) else Waiting])
    case Decided(w, env) =>
      var item := s.workers[w].item;
      (match Decide(item, env)
       case Some(refusal) => s.(workers := s.workers[w := Responding(item, Refused(o, item, refusal))])
       case None => s.(workers := s.workers[w := Executing(item)], executed := s.executed + [item.id]))
    case Executed(w, outcome) =>
      var item := s.workers[w].item;
      s.(workers := s.workers[w := Responding(item, ResponseFor(o, item, ResultOf(outcome)))])
    case Responded(w) =>
      var item := s.workers[w].item;
      s.(gate := Complete(o.limits, s.gate, item), results := TrySetResult(s.results, item.id, s.workers[w].response),
         workers := s.workers[w := Waiting])
    case WorkerEnded(w) => s.(workers := s.workers[w := Ended])
    case Disposed =>
      var (gate, abandoned) := Dispose(s.gate);
      s.(gate := gate, abandoned := abandoned)
    case StopSignalled => s.(stopping := true)
    case AbandonedNext =>
      var item := s.abandoned[0];
      s.(gate := Complete(o.limits, s.gate, item), results := TrySetResult(s.results, item.id, Stopped(item)),
         abandoned := s.abandoned[1..])
  }

  // ----- who holds what -----

  function HeldBy(w: Worker): multiset<WorkItem> {
    if w.Deciding? || w.Executing? || w.Responding? then multiset{w.item} else multiset{}
  }

  function UndecidedBy(w: Worker): multiset<WorkItem> { if w.Deciding? then multiset{w.item} else multiset{} }

  function Gathered(workers: seq<Worker>, f: Worker -> multiset<WorkItem>): multiset<WorkItem> {
    if workers == [] then multiset{} else f(workers[0]) + Gathered(workers[1..], f)
  }

  lemma AddBoth<T>(a: multiset<T>, g: multiset<T>, b: multiset<T>, h: multiset<T>, c: multiset<T>)
    requires g + b == h + c
    ensures a + g + b == a + h + c
  {
    assert a + g + b == a + (g + b) && a + h + c == a + (h + c);
  }

  lemma {:induction false} GatheredUpdate(workers: seq<Worker>, f: Worker -> multiset<WorkItem>, w: nat, x: Worker)
    requires w < |workers|
    ensures Gathered(workers[w := x], f) + f(workers[w]) == Gathered(workers, f) + f(x)
    ensures f(workers[w]) <= Gathered(workers, f)
  {
    var after, rest := workers[w := x], workers[1..];
    if w == 0 {
      assert after[1..] == rest;
    } else {
      assert after[1..] == rest[w - 1 := x] && after[0] == workers[0];
      GatheredUpdate(rest, f, w - 1, x);
      var g, h := Gathered(rest[w - 1 := x], f), Gathered(rest, f);
      assert g + f(workers[w]) == h + f(x);
      AddBoth(f(workers[0]), g, f(workers[w]), h, f(x));
    }
  }

  lemma {:induction false} UndecidedIsHeld(workers: seq<Worker>)
    ensures Gathered(workers, UndecidedBy) <= Gathered(workers, HeldBy)
  {
    if workers != [] { UndecidedIsHeld(workers[1..]); }
  }

  lemma {:induction false} GatheredNothing(workers: seq<Worker>, f: Worker -> multiset<WorkItem>)
    requires forall w :: 0 <= w < |workers| ==> f(workers[w]) == multiset{}
    ensures Gathered(workers, f) == multiset{}
  {
    if workers != [] {
      assert f(workers[0]) == multiset{};
      forall w | 0 <= w < |workers| - 1
        ensures f(workers[1..][w]) == multiset{}
      {
        assert workers[1..][w] == workers[w + 1];
      }
      GatheredNothing(workers[1..], f);
    }
  }

  function Total(workers: seq<Worker>, weight: Worker -> nat): nat {
    if workers == [] then 0 else weight(workers[0]) + Total(workers[1..], weight)
  }

  lemma {:induction false} TotalUpdate(workers: seq<Worker>, weight: Worker -> nat, w: nat, x: Worker)
    requires w < |workers|
    ensures Total(workers[w := x], weight) + weight(workers[w]) == Total(workers, weight) + weight(x)
  {
    if w == 0 {
      assert workers[0 := x][1..] == workers[1..];
    } else {
      assert workers[w := x][1..] == workers[1..][w - 1 := x];
      TotalUpdate(workers[1..], weight, w - 1, x);
    }
  }

  lemma {:induction false} TotalNothing(workers: seq<Worker>, weight: Worker -> nat)
    requires forall w :: 0 <= w < |workers| ==> weight(workers[w]) == 0
    ensures Total(workers, weight) == 0
  {
    if workers != [] {
      forall w | 0 <= w < |workers| - 1
        ensures weight(workers[1..][w]) == 0
      {
        assert workers[1..][w] == workers[w + 1];
      }
      TotalNothing(workers[1..], weight);
    }
  }

  /** Requests without a response yet: queued, in a worker's hands or abandoned by disposal. */
  function Active(s: System): multiset<WorkItem> {
    multiset(s.gate.queue) + Gathered(s.workers, HeldBy) + multiset(s.abandoned)
  }

  /** Requests the executor has not been called for, and still might. */
  function Undecided(s: System): multiset<WorkItem> {
    multiset(s.gate.queue) + Gathered(s.workers, UndecidedBy) + multiset(s.abandoned)
  }

  function HoldsPermit(w: Worker): nat { if w.Holding? then 1 else 0 }
}
