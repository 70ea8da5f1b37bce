/** The scenario test monitor: assertions judged tick by tick, and what the verdict says about the whole trace. */
module Monitor {
  import opened Prelude

  datatype Kind = Plain | Always | Eventually

  datatype Assertion = Assertion(kind: Kind, atTick: Option<nat>, within: Option<nat>)

  /** What evaluating an assertion's expression gives. */
  datatype Check = Holds | Fails | Errors

  datatype Case = Case(assertions: seq<Assertion>, maxTicks: nat)

  /** A simulator state as the monitor sees it: its tick, and how each assertion's expression evaluates. */
  datatype Observation = Observation(tick: nat, checks: seq<Check>)

  predicate Observes(c: Case, o: Observation) { |o.checks| == |c.assertions| }

  predicate IsTrace(c: Case, trace: seq<Observation>) { forall n :: 0 <= n < |trace| ==> Observes(c, trace[n]) }

  // ----- one assertion, one observation -----

  function Deadline(c: Case, a: Assertion): nat { if a.within.Some? then a.within.value else c.maxTicks }

  /** Is the assertion looked at in this tick? */
  predicate Due(c: Case, a: Assertion, tick: nat) {
    if a.atTick.Some? then a.atTick.value == tick else a.kind != Plain || tick == c.maxTicks
  }

  /** The new `satisfied` flag, and whether a failure is reported. */
  function Judge(c: Case, a: Assertion, tick: nat, check: Check, satisfied: bool): (bool, bool) {
    if !Due(c, a, tick) then (satisfied, false)
    else match check
      case Holds => (true, false)
      case Errors => (satisfied, true)
      case Fails => (satisfied, a.kind != Eventually || (tick >= Deadline(c, a) && !satisfied))
  }

  function Satisfied(c: Case, i: nat, trace: seq<Observation>): bool
    requires i < |c.assertions| && IsTrace(c, trace)
  {
    trace != [] &&
    var n := |trace| - 1;
    Judge(c, c.assertions[i], trace[n].tick, trace[n].checks[i], Satisfied(c, i, trace[..n])).0
  }

  /** Was a failure of assertion `i` reported along the trace? */
  predicate Failed(c: Case, i: nat, trace: seq<Observation>)
    requires i < |c.assertions| && IsTrace(c, trace)
  {
    trace != [] &&
    var n := |trace| - 1;
    (Failed(c, i, trace[..n]) ||
      Judge(c, c.assertions[i], trace[n].tick, trace[n].checks[i], Satisfied(c, i, trace[..n])).1)
  }

  // ----- the run -----

  datatype Arrival<+S> = Arrival(state: S, stimulusFailures: nat, driverError: bool)

  datatype Advance<+S> = Advanced(state: S, executed: bool, driverError: bool) | Broken(state: S)

  /** A deterministic simulator with its timeline and drivers. */
  datatype World<!S> = World(tick: S -> nat, arrive: S -> Arrival<S>, advance: S -> Advance<S>, finished: S -> bool,
    pending: S -> bool, checks: S -> seq<Check>)

  /** Arriving keeps the tick; a step, failing or not, moves it by at most one, and by one if it executes nothing. */
  ghost predicate Ticks<S(!new)>(w: World<S>) {
    && (forall s :: w.tick(w.arrive(s).state) == w.tick(s))
    && (forall s :: w.tick(s) <= w.tick(w.advance(s).state) <= w.tick(s) + 1)
    && (forall s :: w.advance(s).Advanced? && !w.advance(s).executed ==> w.tick(w.advance(s).state) == w.tick(s) + 1)
  }

  ghost predicate Evaluates<S(!new)>(w: World<S>, c: Case) { forall s :: |w.checks(s)| == |c.assertions| }

  function Observed<S>(w: World<S>, s: S): Observation { Observation(w.tick(s), w.checks(s)) }

  datatype Failure =
    Stimulus | Asserted(i: nat) | NotEventual(i: nat) | Final(i: nat) | Runtime | NoRuntimeError | OperationLimit

  datatype Limits = Limits(maxTicks: nat, maxOperations: nat)

  datatype Report = Report(failures: seq<Failure>, ticks: nat, operations: nat)

  predicate IsAssertionFailure(f: Failure) { f.Asserted? || f.NotEventual? || f.Final? }

  /** A plain assertion without a tick of its own is checked at the end, unless the tick cap was reached. */
  predicate CheckedAtEnd(a: Assertion) { a.kind == Plain && a.atTick.None? }

  /** What the report must say about assertion failures, given the trace and the last state. */
  ghost predicate Reports(c: Case, cap: nat, trace: seq<Observation>, last: Observation, failures: seq<Failure>)
    requires Observes(c, last) && IsTrace(c, trace)
  {
    && (forall i: nat :: Asserted(i) in failures <==> i < |c.assertions| && Failed(c, i, trace))
    && (forall i: nat ::
        NotEventual(i) in failures <==>
          i < |c.assertions| && c.assertions[i].kind == Eventually && !Satisfied(c, i, trace))
    && (forall i: nat :: Final(i) in failures <==>
          i < |c.assertions| && last.tick < cap && CheckedAtEnd(c.assertions[i]) && last.checks[i] != Holds)
  }

  method EvaluateAssertions(c: Case, o: Observation, ghost trace: seq<Observation>, satisfied: seq<bool>,
                          failures: seq<Failure>)
    returns (satisfied': seq<bool>, failures': seq<Failure>)
    requires Observes(c, o) && IsTrace(c, trace)
    requires |satisfied| == |c.assertions| && forall i ::
        0 <= i < |satisfied| ==> satisfied[i] == Satisfied(c, i, trace)
    requires forall i: nat :: Asserted(i) in failures <==> i < |c.assertions| && Failed(c, i, trace)
    requires OnlyEarly(failures)
    ensures |satisfied'| == |c.assertions| && forall i ::
        0 <= i < |satisfied'| ==> satisfied'[i] == Satisfied(c, i, trace + [o])
    ensures forall i: nat :: Asserted(i) in failures' <==> i < |c.assertions| && Failed(c, i, trace + [o])
    ensures OnlyEarly(failures') && (failures != [] ==> failures' != [])
    ensures Stimulus in failures' <==> Stimulus in failures
  {
    hide Judge, Failed, Satisfied;
    satisfied', failures' := satisfied, failures;
    for i := 0 to |c.assertions|
      invariant |satisfied'| == |c.assertions|
      invariant forall j :: 0 <= j < i ==> satisfied'[j] == Satisfied(c, j, trace + [o])
      invariant forall j :: i <= j < |c.assertions| ==> satisfied'[j] == Satisfied(c, j, trace)
      invariant forall j: nat :: Asserted(j) in failures' <==>
        j < |c.assertions| && (if j < i then Failed(c, j, trace + [o]) else Failed(c, j, trace))
      invariant OnlyEarly(failures') && (failures != [] ==> failures' != [])
      invariant Stimulus in failures' <==> Stimulus in failures
    {
      OneMore(c, i, trace, o);
      var (now, failed) := Judge(c, c.assertions[i], o.tick, o.checks[i], satisfied'[i]);
      satisfied' := satisfied'[i := now];
      if failed { failures' := failures' + [Asserted(i)]; }
    }
  }

  lemma OneMore(c: Case, i: nat, trace: seq<Observation>, o: Observation)
    requires i < |c.assertions| && Observes(c, o) && IsTrace(c, trace)
    ensures var (now, failed) := Judge(c, c.assertions[i], o.tick, o.checks[i], Satisfied(c, i, trace));
      Satisfied(c, i, trace + [o]) == now && (Failed(c, i, trace + [o]) <==> Failed(c, i, trace) || failed)
  {
    assert (trace + [o])[..|trace|] == trace;
  }

  /** The failures of a finished run: unfulfilled `eventually`s and plain assertions that do not hold at the end. */
  method EndAssertions(c: Case, cap: nat, last: Observation, satisfied: seq<bool>, failures: seq<Failure>)
    returns (result: seq<Failure>)
    requires Observes(c, last) && |satisfied| == |c.assertions|
    requires forall i: nat :: NotEventual(i) !in failures && Final(i) !in failures
    ensures forall f :: f in result && (f.Asserted? || !IsAssertionFailure(f)) <==> f in failures
    ensures forall i: nat ::
        NotEventual(i) in result <==> i < |c.assertions| && c.assertions[i].kind == Eventually && !satisfied[i]
    ensures forall i: nat :: Final(i) in result <==>
      i < |c.assertions| && last.tick < cap && CheckedAtEnd(c.assertions[i]) && last.checks[i] != Holds
  {
    result := failures;
    for i := 0 to |c.assertions|
      invariant forall f :: f in result && (f.Asserted? || !IsAssertionFailure(f)) <==> f in failures
      invariant forall j: nat ::
          NotEventual(j) in result <==> j < i && c.assertions[j].kind == Eventually && !satisfied[j]
      invariant forall j: nat :: Final(j) !in result
    {
      if c.assertions[i].kind == Eventually && !satisfied[i] { result := result + [NotEventual(i)]; }
    }
    if last.tick < cap {
      for i := 0 to |c.assertions|
        invariant forall f :: f in result && (f.Asserted? || !IsAssertionFailure(f)) <==> f in failures
        invariant forall j: nat ::
            NotEventual(j) in result <==> j < |c.assertions| && c.assertions[j].kind == Eventually && !satisfied[j]
        invariant forall j: nat ::
            Final(j) in result <==> j < i && CheckedAtEnd(c.assertions[j]) && last.checks[j] != Holds
      {
        if CheckedAtEnd(c.assertions[i]) && last.checks[i] != Holds { result := result + [Final(i)]; }
      }
    }
  }

  /**
   Scheduler steps until the tick ends, the operation budget is spent or something breaks: the state, the operations
   so far, and whether it broke.
   */
  function Tick<S(!new)>(w: World<S>, tick: nat, s: S, maxOperations: nat, operations: nat): (S, nat, bool)
    requires Ticks(w) && operations <= maxOperations && tick <= w.tick(s)
    decreases if w.tick(s) == tick then 1 else 0, maxOperations - operations
  {
    if w.tick(s) != tick || operations >= maxOperations then (s, operations, false)
    else match w.advance(s)
      case Broken(state) => (state, operations, true)
      case Advanced(state, executed, driverError) =>
        var done := if executed then operations + 1 else operations;
        if driverError then (state, done, true) else Tick(w, tick, state, maxOperations, done)
  }

  lemma {:induction false} TickAdvances<S(!new)>(w: World<S>, tick: nat, s: S, maxOperations: nat, operations: nat)
    requires Ticks(w) && operations <= maxOperations && tick <= w.tick(s)
    ensures var (t, done, error) := Tick(w, tick, s, maxOperations, operations);
      && operations <= done <= maxOperations && w.tick(t) >= w.tick(s) &&
          (!error ==> w.tick(t) > tick || done == maxOperations)
      && (w.tick(s) <= tick + 1 ==> w.tick(t) <= tick + 1)
    decreases if w.tick(s) == tick then 1 else 0, maxOperations - operations
  {
    if w.tick(s) == tick && operations < maxOperations && w.advance(s).Advanced? && !w.advance(s).driverError {
      TickAdvances(w, tick, w.advance(s).state, maxOperations, if w.advance(s).executed then operations + 1
        else operations);
    }
  }

  predicate GoesWrong<S>(a: Advance<S>) { a.Broken? || a.driverError }

  /** The state after `k` scheduler steps. */
  function Reached<S>(w: World<S>, s: S, k: nat): S { if k == 0 then s else Reached(w, w.advance(s).state, k - 1) }

  /** How many of the first `k` scheduler steps executed an operation. */
  function ExecutedIn<S>(w: World<S>, s: S, k: nat): nat {
    if k == 0 then 0
    else
      var a := w.advance(s);
      ExecutedIn(w, a.state, k - 1) + if a.Advanced? && a.executed then 1 else 0
  }

  /** Before its `k` steps are over a tick is neither past, nor over budget, nor broken. */
  ghost predicate Proceeds<S>(w: World<S>, tick: nat, s: S, maxOperations: nat, operations: nat, k: nat) {
    forall j: nat :: j < k ==>
      w.tick(Reached(w, s, j)) == tick && operations + ExecutedIn(w, s, j) < maxOperations
      && (j + 1 < k ==> !GoesWrong(w.advance(Reached(w, s, j))))
  }

  /** A tick is so many scheduler steps, the first after which it is past, over budget or broken. */
  lemma {:induction false} TickIs<S(!new)>(w: World<S>, tick: nat, s: S, maxOperations: nat, operations: nat)
    returns (k: nat)
    requires Ticks(w) && operations <= maxOperations && tick <= w.tick(s)
    ensures var (t, done, error) := Tick(w, tick, s, maxOperations, operations);
      && t == Reached(w, s, k) && done == operations + ExecutedIn(w, s, k)
      && Proceeds(w, tick, s, maxOperations, operations, k)
      && (error <==> k > 0 && GoesWrong(w.advance(Reached(w, s, k - 1))))
      && (!error ==> w.tick(t) != tick || done >= maxOperations)
    decreases if w.tick(s) == tick then 1 else 0, maxOperations - operations
  {
    if w.tick(s) != tick || operations >= maxOperations {
      k := 0;
    } else {
      var a := w.advance(s);
      var next := a.state;
      if GoesWrong(a) {
        k := 1;
        assert Reached(w, next, 0) == next && ExecutedIn(w, next, 0) == 0 && Reached(w, s, 0) == s;
      } else {
        var done := if a.executed then operations + 1 else operations;
        k := TickIs(w, tick, next, maxOperations, done);
        k := k + 1;
        forall j: nat | j < k
          ensures w.tick(Reached(w, s, j)) == tick && operations + ExecutedIn(w, s, j) < maxOperations
          ensures j + 1 < k ==> !GoesWrong(w.advance(Reached(w, s, j)))
        {
          if j > 0 { assert Reached(w, s, j) == Reached(w, next, j - 1); }
        }
      }
    }
  }

  method RunTick<S(!new)>(w: World<S>, s: S, maxOperations: nat, operations: nat) returns (t: S, done: nat, error: bool)
    requires Ticks(w) && operations <= maxOperations
    ensures (t, done, error) == Tick(w, w.tick(s), s, maxOperations, operations)
  {
    t, done, error := s, operations, false;
    while w.tick(t) == w.tick(s) && done < maxOperations
      invariant operations <= done <= maxOperations && w.tick(t) >= w.tick(s)
      invariant Tick(w, w.tick(s), t, maxOperations, done) == Tick(w, w.tick(s), s, maxOperations, operations)
      decreases w.tick(s) + 1 - w.tick(t), maxOperations - done
    {
      match w.advance(t) {
        case Broken(state) => return state, done, true;
        case Advanced(state, executed, driverError) =>
          t := state;
          if executed { done := done + 1; }
          if driverError { return t, done, true; }
      }
    }
  }

  /** One observed state and the operations executed before it. */
  datatype Moment<+S> = Moment(state: S, operations: nat)

  /** The run goes on after this moment. */
  predicate GoesOn<S>(w: World<S>, cap: nat, maxOperations: nat, m: Moment<S>) {
    w.tick(m.state) < cap && m.operations < maxOperations && (!w.finished(m.state) || w.pending(m.state))
  }

  /** The moments a run from `start` observes: each arrives at the end of the tick before it. */
  ghost predicate IsRun<S(!new)>(w: World<S>, start: S, cap: nat, maxOperations: nat, run: seq<Moment<S>>)
    requires Ticks(w)
  {
    && run != [] && run[0] == Moment(w.arrive(start).state, 0)
    && (forall n :: 0 <= n < |run| ==> run[n].operations <= maxOperations)
    && (forall n ::
        0 <= n < |run| - 1 ==> GoesOn(w, cap, maxOperations, run[n]) && Follows(w, maxOperations, run[n], run[n + 1]))
  }

  ghost predicate Follows<S(!new)>(w: World<S>, maxOperations: nat, m: Moment<S>, next: Moment<S>)
    requires Ticks(w)
  {
    && m.operations <= maxOperations
    && var (t, done, error) := Tick(w, w.tick(m.state), m.state, maxOperations, m.operations);
      !error && next == Moment(w.arrive(t).state, done)
  }

  /** The tick after this moment breaks, in this state and after so many operations. */
  ghost predicate BreaksIn<S(!new)>(w: World<S>, maxOperations: nat, m: Moment<S>, last: S, operations: nat)
    requires Ticks(w)
  {
    m.operations <= maxOperations
    && Tick(w, w.tick(m.state), m.state, maxOperations, m.operations) == (last, operations, true)
  }

  /** The tick after this moment breaks. */
  ghost predicate Breaks<S(!new)>(w: World<S>, maxOperations: nat, m: Moment<S>)
    requires Ticks(w)
  {
    m.operations <= maxOperations && Tick(w, w.tick(m.state), m.state, maxOperations, m.operations).2
  }

  /** The arrival that moment `n` is the state of. */
  function ArrivalOf<S(!new)>(w: World<S>, start: S, maxOperations: nat, run: seq<Moment<S>>, n: nat): Arrival<S>
    requires Ticks(w) && n <= |run|
  {
    if n == 0 || run[n - 1].operations > maxOperations then w.arrive(start)
    else w.arrive(Tick(w, w.tick(run[n - 1].state), run[n - 1].state, maxOperations, run[n - 1].operations).0)
  }

  /** Some stimulus of the timeline could not be applied. */
  ghost predicate StimulusFailed<S(!new)>(w: World<S>, start: S, maxOperations: nat, run: seq<Moment<S>>)
    requires Ticks(w)
  {
    exists n: nat :: n < |run| && ArrivalOf(w, start, maxOperations, run, n).stimulusFailures > 0
  }

  /** A driver or the simulator cuts the run short: at its last arrival, or in the tick that would follow. */
  ghost predicate StopsWithError<S(!new)>(w: World<S>, start: S, cap: nat, maxOperations: nat, run: seq<Moment<S>>,
                                          early: bool)
    requires Ticks(w) && run != []
  {
    var m := run[|run| - 1];
    || ArrivalOf(w, start, maxOperations, run, |run| - 1).driverError
    || (!early && GoesOn(w, cap, maxOperations, m) && Breaks(w, maxOperations, m))
  }

  /** Each failure that is no assertion's is reported exactly for its reason, and the run stops only for one. */
  ghost predicate Verdicts<S(!new)>(w: World<S>, start: S, cap: nat, maxOperations: nat, expectsError: bool,
                                    run: seq<Moment<S>>, last: S, r: Report)
    requires Ticks(w) && run != []
  {
    var stopped := StopsWithError(w, start, cap, maxOperations, run, HasEarly(r.failures));
    && (Stimulus in r.failures <==> StimulusFailed(w, start, maxOperations, run))
    && (OperationLimit in r.failures <==> r.operations >= maxOperations && !w.finished(last))
    && (Runtime in r.failures <==> stopped && !expectsError)
    && (NoRuntimeError in r.failures <==> !stopped && expectsError)
    && (stopped || HasEarly(r.failures) || !GoesOn(w, cap, maxOperations, run[|run| - 1]))
  }

  function TraceOf<S>(w: World<S>, run: seq<Moment<S>>): (trace: seq<Observation>)
    ensures |trace| == |run|
  {
    seq(|run|, n requires 0 <= n < |run| => Observed(w, run[n].state))
  }

  /** The run was not cut short by an error of a driver or the simulator. */
  predicate EndedInTime(expectsError: bool, failures: seq<Failure>) {
    if expectsError then NoRuntimeError in failures else Runtime !in failures
  }

  /**
   A plain assertion goes unreported exactly if it holds at the end, or if the runner's own tick limit is below the
   case's and was reached.
   */
  ghost predicate PlainVerdicts<S(!new)>(w: World<S>, c: Case, limits: Limits, last: S, failures: seq<Failure>)
    requires Evaluates(w, c)
  {
    forall i: nat :: i < |c.assertions| && CheckedAtEnd(c.assertions[i]) ==>
      (!Reported(c, i, failures) <==>
         w.checks(last)[i] == Holds || (limits.maxTicks < c.maxTicks && w.tick(last) >= limits.maxTicks))
  }

  /** The end of a run: the verdict on runtime errors, the assertions left to check, and the operation limit. */
  method Conclude(c: Case, cap: nat, last: Observation, ghost trace: seq<Observation>, satisfied: seq<bool>,
                  early: seq<Failure>,
                  error: bool, expectsError: bool, spent: bool)
    returns (failures: seq<Failure>)
    requires Observes(c, last) && IsTrace(c, trace)
    requires |satisfied| == |c.assertions| && forall i ::
        0 <= i < |satisfied| ==> satisfied[i] == Satisfied(c, i, trace)
    requires forall i: nat :: Asserted(i) in early <==> i < |c.assertions| && Failed(c, i, trace)
    requires OnlyEarly(early)
    ensures Reports(c, cap, trace, last, failures)
    ensures Runtime in failures <==> error && !expectsError
    ensures NoRuntimeError in failures <==> !error && expectsError
    ensures OperationLimit in failures <==> spent
    ensures (Stimulus in failures <==> Stimulus in early) && (HasEarly(failures) <==> early != [])
  {
    hide Reports, Failed, Satisfied;
    failures := early;
    if error {
      if !expectsError { failures := failures + [Runtime]; }
    } else if expectsError {
      failures := failures + [NoRuntimeError];
    }
    ghost var verdict := failures;
    failures := EndAssertions(c, cap, last, satisfied, failures);
    assert forall f :: f in {Stimulus, Runtime, NoRuntimeError, OperationLimit} ==> (f in verdict <==> f in failures);
    assert early != [] ==> early[0] in failures;
    if spent { failures := failures + [OperationLimit]; }
    ReportIs(c, cap, trace, last, satisfied, failures);
  }

  /** A failure from before the end of the run, which stopped it. */
  predicate HasEarly(failures: seq<Failure>) { exists f :: f in failures && (f.Asserted? || f.Stimulus?) }

  /** The monitor's main loop and its end. */
  method RunCase<S(!new)>(w: World<S>, c: Case, limits: Limits, caseOperations: nat, expectsError: bool, start: S)
    returns (r: Report, ghost run: seq<Moment<S>>, ghost last: S)
    requires Ticks(w) && Evaluates(w, c)
    ensures IsRun(w, start, Min(c.maxTicks, limits.maxTicks), Min(caseOperations, limits.maxOperations), run)
    ensures IsTrace(c, TraceOf(w, run)) && r.ticks == w.tick(last)
    ensures Reports(c, Min(c.maxTicks, limits.maxTicks), TraceOf(w, run), Observed(w, last), r.failures)
    ensures r.operations <= Min(caseOperations, limits.maxOperations)
    ensures last == run[|run| - 1].state
      || BreaksIn(w, Min(caseOperations, limits.maxOperations), run[|run| - 1], last, r.operations)
    ensures var cap, maxOperations := Min(c.maxTicks, limits.maxTicks), Min(caseOperations, limits.maxOperations);
      Verdicts(w, start, cap, maxOperations, expectsError, run, last, r)
    ensures EndedInTime(expectsError, r.failures) ==> last == run[|run| - 1].state
    ensures EndedInTime(expectsError, r.failures) && w.tick(start) <= Min(c.maxTicks, limits.maxTicks) ==>
      PlainVerdicts(w, c, limits, last, r.failures)
  {
    hide Reports, Failed, Satisfied, Ticks, Tick, Follows, GoesOn, IsRun, TraceOf, PlainVerdicts, BreaksIn,
        Breaks, ArrivalOf, StimulusFailed;
    var cap, maxOperations := Min(c.maxTicks, limits.maxTicks), Min(caseOperations, limits.maxOperations);
    var s, operations, error := start, 0, false;
    var failures: seq<Failure> := [];
    var satisfied := seq(|c.assertions|, _ => false);
    run := [];
    NothingYet(c);
    NothingArrived(w, start, maxOperations);
    var running := true;
    while running
      invariant operations <= maxOperations && IsTrace(c, TraceOf(w, run))
      invariant (run != [] ==> IsRun(w, start, cap, maxOperations, run))
      invariant run != [] ==> run[|run| - 1].operations <= maxOperations
      invariant |satisfied| == |c.assertions| && forall i ::
          0 <= i < |satisfied| ==> satisfied[i] == Satisfied(c, i, TraceOf(w, run))
      invariant forall i: nat :: Asserted(i) in failures <==> i < |c.assertions| && Failed(c, i, TraceOf(w, run))
      invariant OnlyEarly(failures) && (running ==> !error && failures == [])
      invariant Stimulus in failures <==> StimulusFailed(w, start, maxOperations, run)
      invariant running && run == [] ==> s == start && operations == 0
      invariant running && run != [] ==>
        (GoesOn(w, cap, maxOperations, run[|run| - 1])
        && (s, operations, false) == Tick(w, w.tick(run[|run| - 1].state), run[|run| - 1].state, maxOperations,
            run[|run| - 1].operations))
      invariant !running ==>
        (run != [] &&
        (s == run[|run| - 1].state || BreaksIn(w, maxOperations, run[|run| - 1], s, operations)) &&
        (error <==> StopsWithError(w, start, cap, maxOperations, run, failures != [])) &&
        (error || (run[|run| - 1] == Moment(s, operations) &&
          (failures != [] || !GoesOn(w, cap, maxOperations, run[|run| - 1])))))
      decreases running, maxOperations - operations, if w.tick(s) < cap then cap - w.tick(s) else 0
    {
      ArrivalKeepsTick(w, s);
      if run != [] { MomentFollows(w, maxOperations, run[|run| - 1], s, operations); }
      var arrival := w.arrive(s);
      s, error := arrival.state, arrival.driverError;
      StimuliAreEarly(arrival.stimulusFailures, failures);
      failures := failures + seq(arrival.stimulusFailures, _ => Stimulus);
      assert arrival.stimulusFailures > 0 ==> failures[|failures| - 1] == Stimulus;
      satisfied, failures := EvaluateAssertions(c, Observed(w, s), TraceOf(w, run), satisfied, failures);
      ghost var now := Moment(s, operations);
      TraceGrows(w, run, now);
      MomentGoesOn(w, cap, maxOperations, now);
      RunGrows(w, start, cap, maxOperations, run, now);
      ArrivalsGrow(w, start, maxOperations, run, now, arrival);
      run := run + [now];
      if failures != [] || error || w.tick(s) >= cap || operations >= maxOperations ||
        (w.finished(s) && !w.pending(s)) {
        running := false;
      } else {
        TickAdvances(w, w.tick(s), s, maxOperations, operations);
        s, operations, error := RunTick(w, s, maxOperations, operations);
        MomentBreaks(w, maxOperations, now, s, operations, error);
        if error { running := false; }
      }
    }
    last := s;
    var spent := operations >= maxOperations && !w.finished(s);
    failures := Conclude(c, cap, Observed(w, s), TraceOf(w, run), satisfied, failures, error, expectsError, spent);
    if !error && w.tick(start) <= cap { PlainIsDecided(w, c, limits, maxOperations, start, run, last, failures); }
    r := Report(failures, w.tick(s), operations);
    assert StopsWithError(w, start, cap, maxOperations, run, HasEarly(failures)) <==> error;
  }

  /** No failure of the end of the run yet. */
  predicate OnlyEarly(failures: seq<Failure>) {
    forall k :: 0 <= k < |failures| ==> failures[k].Asserted? || failures[k].Stimulus?
  }

  lemma StimuliAreEarly(n: nat, failures: seq<Failure>)
    requires OnlyEarly(failures)
    ensures var all := failures + seq(n, _ => Stimulus);
      OnlyEarly(all) && forall i: nat :: Asserted(i) in all <==> Asserted(i) in failures
  {}

  lemma RunGrows<S(!new)>(w: World<S>, start: S, cap: nat, maxOperations: nat, run: seq<Moment<S>>, m: Moment<S>)
    requires Ticks(w) && m.operations <= maxOperations
    requires run == [] ==> m == Moment(w.arrive(start).state, 0)
    requires run != [] ==> IsRun(w, start, cap, maxOperations, run) && GoesOn(w, cap, maxOperations, run[|run| - 1])
    requires run != [] ==> Follows(w, maxOperations, run[|run| - 1], m)
    ensures IsRun(w, start, cap, maxOperations, run + [m])
  {
    hide Tick, Ticks, GoesOn, Follows;
  }

  lemma TraceGrows<S>(w: World<S>, run: seq<Moment<S>>, m: Moment<S>)
    ensures TraceOf(w, run + [m]) == TraceOf(w, run) + [Observed(w, m.state)]
    ensures TraceOf(w, [m]) == [Observed(w, m.state)] && TraceOf(w, []) == []
  {}

  lemma MomentGoesOn<S>(w: World<S>, cap: nat, maxOperations: nat, m: Moment<S>)
    ensures GoesOn(w, cap, maxOperations, m) <==>
      w.tick(m.state) < cap && m.operations < maxOperations && (!w.finished(m.state) || w.pending(m.state))
  {}

  lemma MomentFollows<S(!new)>(w: World<S>, maxOperations: nat, m: Moment<S>, t: S, done: nat)
    requires Ticks(w) && m.operations <= maxOperations
    requires (t, done, false) == Tick(w, w.tick(m.state), m.state, maxOperations, m.operations)
    ensures Follows(w, maxOperations, m, Moment(w.arrive(t).state, done))
  {}

  lemma MomentBreaks<S(!new)>(w: World<S>, maxOperations: nat, m: Moment<S>, last: S, operations: nat, error: bool)
    requires Ticks(w) && m.operations <= maxOperations
    requires (last, operations, error) == Tick(w, w.tick(m.state), m.state, maxOperations, m.operations)
    ensures (error ==> BreaksIn(w, maxOperations, m, last, operations)) && (error <==> Breaks(w, maxOperations, m))
  {}

  /** One more moment: the arrivals before it are the same, and it has one of its own. */
  lemma ArrivalsGrow<S(!new)>(w: World<S>, start: S, maxOperations: nat, run: seq<Moment<S>>, m: Moment<S>,
                              arrival: Arrival<S>)
    requires Ticks(w)
    requires run == [] ==> arrival == w.arrive(start)
    requires run != [] ==>
      (run[|run| - 1].operations <= maxOperations && arrival == w.arrive(Tick(w, w.tick(run[|run| - 1].state),
        run[|run| - 1].state, maxOperations, run[|run| - 1].operations).0))
    ensures ArrivalOf(w, start, maxOperations, run + [m], |run|) == arrival
    ensures StimulusFailed(w, start, maxOperations, run + [m]) <==>
      StimulusFailed(w, start, maxOperations, run) || arrival.stimulusFailures > 0
  {
    hide Tick, Ticks;
    var longer := run + [m];
    assert forall n :: 0 <= n < |run| ==> longer[n] == run[n];
    forall n: nat | n < |run|
      ensures ArrivalOf(w, start, maxOperations, longer, n) == ArrivalOf(w, start, maxOperations, run, n) {}
    if StimulusFailed(w, start, maxOperations, run) {
      var n: nat :| n < |run| && ArrivalOf(w, start, maxOperations, run, n).stimulusFailures > 0;
      assert ArrivalOf(w, start, maxOperations, longer, n).stimulusFailures > 0;
    }
  }

  lemma ReportIs(c: Case, cap: nat, trace: seq<Observation>, last: Observation, satisfied: seq<bool>,
                 failures: seq<Failure>)
    requires Observes(c, last) && IsTrace(c, trace) && |satisfied| == |c.assertions|
    requires forall i :: 0 <= i < |satisfied| ==> satisfied[i] == Satisfied(c, i, trace)
    requires forall i: nat :: Asserted(i) in failures <==> i < |c.assertions| && Failed(c, i, trace)
    requires forall i: nat ::
        NotEventual(i) in failures <==> i < |c.assertions| && c.assertions[i].kind == Eventually && !satisfied[i]
    requires forall i: nat :: Final(i) in failures <==>
      i < |c.assertions| && last.tick < cap && CheckedAtEnd(c.assertions[i]) && last.checks[i] != Holds
    ensures Reports(c, cap, trace, last, failures)
  {
    hide Satisfied, Failed;
  }

  lemma ArrivalKeepsTick<S(!new)>(w: World<S>, s: S)
    requires Ticks(w)
    ensures w.tick(w.arrive(s).state) == w.tick(s)
  {}

  lemma NothingArrived<S(!new)>(w: World<S>, start: S, maxOperations: nat)
    requires Ticks(w)
    ensures !StimulusFailed(w, start, maxOperations, [])
  {}

  lemma NothingYet(c: Case)
    ensures forall i :: 0 <= i < |c.assertions| ==> !Satisfied(c, i, []) && !Failed(c, i, [])
  {}

  // ----- what the verdict means -----

  predicate DueAt(c: Case, i: nat, trace: seq<Observation>, n: nat)
    requires i < |c.assertions|
  {
    n < |trace| && Due(c, c.assertions[i], trace[n].tick)
  }

  lemma {:induction false} SatisfiedMeans(c: Case, i: nat, trace: seq<Observation>)
    requires i < |c.assertions| && IsTrace(c, trace)
    ensures Satisfied(c, i, trace) <==>
        exists n :: 0 <= n < |trace| && DueAt(c, i, trace, n) && trace[n].checks[i] == Holds
  {
    if trace != [] {
      var m := |trace| - 1;
      SatisfiedMeans(c, i, trace[..m]);
      assert forall n ::
          0 <= n < m ==> trace[..m][n] == trace[n] && (DueAt(c, i, trace[..m], n) <==> DueAt(c, i, trace, n));
      if Satisfied(c, i, trace[..m]) {
        var n :| 0 <= n < m && DueAt(c, i, trace[..m], n) && trace[..m][n].checks[i] == Holds;
        assert DueAt(c, i, trace, n);
      }
      assert DueAt(c, i, trace, m) <==> Due(c, c.assertions[i], trace[m].tick);
    }
  }

  /** An observation that makes the monitor report a failure. */
  ghost predicate Bad(c: Case, i: nat, trace: seq<Observation>, n: nat)
    requires i < |c.assertions| && IsTrace(c, trace) && n < |trace|
  {
    && DueAt(c, i, trace, n)
    && (trace[n].checks[i] == Errors
        || (trace[n].checks[i] == Fails
            && (c.assertions[i].kind != Eventually
                || (trace[n].tick >= Deadline(c, c.assertions[i])
                    && forall m :: 0 <= m < n ==> !(DueAt(c, i, trace, m) && trace[m].checks[i] == Holds)))))
  }

  lemma BadStays(c: Case, i: nat, trace: seq<Observation>, n: nat)
    requires i < |c.assertions| && IsTrace(c, trace) && n < |trace| - 1
    ensures Bad(c, i, trace[..|trace| - 1], n) <==> Bad(c, i, trace, n)
  {
    var front := trace[..|trace| - 1];
    forall m | 0 <= m <= n ensures front[m] == trace[m] && (DueAt(c, i, front, m) <==> DueAt(c, i, trace, m)) {}
  }

  lemma LastIsBad(c: Case, i: nat, trace: seq<Observation>)
    requires i < |c.assertions| && IsTrace(c, trace) && trace != []
    ensures var n := |trace| - 1;
      Bad(c, i, trace, n) <==>
        Judge(c, c.assertions[i], trace[n].tick, trace[n].checks[i], Satisfied(c, i, trace[..n])).1
  {
    var n := |trace| - 1;
    SatisfiedMeans(c, i, trace[..n]);
    forall m | 0 <= m < n
      ensures trace[..n][m] == trace[m] && (DueAt(c, i, trace[..n], m) <==> DueAt(c, i, trace, m)) {}
    hide Satisfied;
  }

  /** A failure is reported exactly when some observation is bad. */
  lemma {:induction false} FailedMeans(c: Case, i: nat, trace: seq<Observation>)
    requires i < |c.assertions| && IsTrace(c, trace)
    ensures Failed(c, i, trace) <==> exists n :: 0 <= n < |trace| && Bad(c, i, trace, n)
  {
    if trace != [] {
      var m := |trace| - 1;
      FailedMeans(c, i, trace[..m]);
      LastIsBad(c, i, trace);
      forall n | 0 <= n < m ensures Bad(c, i, trace[..m], n) <==> Bad(c, i, trace, n) { BadStays(c, i, trace, n); }
      hide Bad, Judge, Satisfied;
    }
  }

  /** The trace meaning of an assertion; `cap` is the tick at which the run was cut off. */
  ghost predicate Meets(c: Case, i: nat, cap: nat, trace: seq<Observation>, last: Observation)
    requires i < |c.assertions| && IsTrace(c, trace) && Observes(c, last)
  {
    var a := c.assertions[i];
    match a.kind
    case Always =>
      forall n :: 0 <= n < |trace| && a.atTick in {None, Some(trace[n].tick)} ==> trace[n].checks[i] == Holds
    case Eventually =>
      ((exists n: nat :: HoldsInTime(c, i, trace, n))
       && forall n :: 0 <= n < |trace| && a.atTick in {None, Some(trace[n].tick)} ==> trace[n].checks[i] != Errors)
    case Plain =>
      match a.atTick
      case Some(tick) => forall n :: 0 <= n < |trace| && trace[n].tick == tick ==> trace[n].checks[i] == Holds
      case None =>
        (forall n :: 0 <= n < |trace| && trace[n].tick == c.maxTicks ==> trace[n].checks[i] == Holds)
        && (last.tick < cap ==> last.checks[i] == Holds)
  }

  /** An `eventually` holds in observation `n`, and every earlier one was before its deadline. */
  ghost predicate HoldsInTime(c: Case, i: nat, trace: seq<Observation>, n: nat)
    requires i < |c.assertions| && IsTrace(c, trace)
  {
    var a := c.assertions[i];
    && n < |trace| && a.atTick in {None, Some(trace[n].tick)} && trace[n].checks[i] == Holds
    && forall m :: 0 <= m < n && a.atTick in {None, Some(trace[m].tick)} ==>
      trace[m].tick < match a.within case Some(tick) => tick case None => c.maxTicks
  }

  ghost predicate Reported(c: Case, i: nat, failures: seq<Failure>) {
    Asserted(i) in failures || NotEventual(i) in failures || Final(i) in failures
  }

  lemma FirstHold(c: Case, i: nat, trace: seq<Observation>, n: nat) returns (k: nat)
    requires i < |c.assertions| && IsTrace(c, trace) && n < |trace| && DueAt(c, i, trace, n)
    requires trace[n].checks[i] == Holds
    ensures k <= n && DueAt(c, i, trace, k) && trace[k].checks[i] == Holds
    ensures forall m :: 0 <= m < k ==> !(DueAt(c, i, trace, m) && trace[m].checks[i] == Holds)
  {
    k := 0;
    while !(DueAt(c, i, trace, k) && trace[k].checks[i] == Holds)
      invariant k <= n && forall m :: 0 <= m < k ==> !(DueAt(c, i, trace, m) && trace[m].checks[i] == Holds)
      decreases n - k
    {
      k := k + 1;
    }
  }

  /** For `eventually`: nothing bad and satisfied at some time is holding in time without errors. */
  lemma EventuallyMeans(c: Case, i: nat, trace: seq<Observation>)
    requires i < |c.assertions| && IsTrace(c, trace) && c.assertions[i].kind == Eventually
    ensures !Failed(c, i, trace) && Satisfied(c, i, trace) <==>
      ((exists n: nat :: HoldsInTime(c, i, trace, n))
       && forall n :: 0 <= n < |trace| && DueAt(c, i, trace, n) ==> trace[n].checks[i] != Errors)
  {
    SatisfiedMeans(c, i, trace);
    FailedMeans(c, i, trace);
    hide Failed, Satisfied, DueAt;
    if !Failed(c, i, trace) && Satisfied(c, i, trace) {
      var n :| 0 <= n < |trace| && DueAt(c, i, trace, n) && trace[n].checks[i] == Holds;
      var k := FirstHold(c, i, trace, n);
      forall m | 0 <= m < k && DueAt(c, i, trace, m) ensures trace[m].tick < Deadline(c, c.assertions[i]) {
        assert !Bad(c, i, trace, m);
      }
      assert HoldsInTime(c, i, trace, k);
      forall m | 0 <= m < |trace| && DueAt(c, i, trace, m)
        ensures trace[m].checks[i] != Errors
      {
        assert !Bad(c, i, trace, m);
      }
    } else if exists n: nat :: HoldsInTime(c, i, trace, n) {
      var n: nat :| HoldsInTime(c, i, trace, n);
      assert Satisfied(c, i, trace);
      var b :| 0 <= b < |trace| && Bad(c, i, trace, b);
      assert trace[b].checks[i] == Errors || n <= b;
    }
  }

  lemma OthersMean(c: Case, i: nat, trace: seq<Observation>)
    requires i < |c.assertions| && IsTrace(c, trace) && c.assertions[i].kind != Eventually
    ensures !Failed(c, i, trace) <==>
        forall n :: 0 <= n < |trace| && DueAt(c, i, trace, n) ==> trace[n].checks[i] == Holds
  {
    FailedMeans(c, i, trace);
    hide Failed, DueAt;
    forall n | 0 <= n < |trace| ensures Bad(c, i, trace, n) <==> DueAt(c, i, trace, n) && trace[n].checks[i] != Holds {}
  }

  /** The monitor agrees with the trace meaning: an assertion goes unreported exactly when the trace meets it. */
  lemma VerdictIsMeaning(c: Case, i: nat, cap: nat, trace: seq<Observation>, last: Observation, failures: seq<Failure>)
    requires i < |c.assertions| && IsTrace(c, trace) && Observes(c, last) && Reports(c, cap, trace, last, failures)
    ensures !Reported(c, i, failures) <==> Meets(c, i, cap, trace, last)
  {
    hide Failed, Satisfied;
    if c.assertions[i].kind == Eventually { EventuallyMeans(c, i, trace); } else { OthersMean(c, i, trace); }
  }

  /**
   A passing report is empty exactly if every stimulus was applied, every assertion is met,
     the run stopped with an error
   exactly if one was expected, and the operations sufficed.
   */
  lemma PassMeans<S(!new)>(w: World<S>, c: Case, start: S, cap: nat, maxOperations: nat, expectsError: bool,
                           run: seq<Moment<S>>, last: S, r: Report)
    requires Ticks(w) && Evaluates(w, c) && run != [] && IsTrace(c, TraceOf(w, run))
    requires Reports(c, cap, TraceOf(w, run), Observed(w, last), r.failures)
    requires Verdicts(w, start, cap, maxOperations, expectsError, run, last, r)
    ensures r.failures == [] <==>
      && !StimulusFailed(w, start, maxOperations, run)
      && (forall i: nat :: i < |c.assertions| ==> Meets(c, i, cap, TraceOf(w, run), Observed(w, last)))
      && (StopsWithError(w, start, cap, maxOperations, run, false) <==> expectsError)
      && (r.operations < maxOperations || w.finished(last))
  {
    var trace, o, failures := TraceOf(w, run), Observed(w, last), r.failures;
    forall i: nat | i < |c.assertions| ensures !Reported(c, i, failures) <==> Meets(c, i, cap, trace, o) {
      VerdictIsMeaning(c, i, cap, trace, o, failures);
    }
    forall f: Failure | f in failures && IsAssertionFailure(f)
      ensures f.i < |c.assertions| && Reported(c, f.i, failures) {}
    hide Meets, Reports, StimulusFailed, Ticks, TraceOf, GoesOn, Breaks, ArrivalOf;
    if failures != [] && !StimulusFailed(w, start, maxOperations, run)
      && forall i: nat :: i < |c.assertions| ==> Meets(c, i, cap, trace, o) {
      assert failures[0] in failures && !HasEarly(failures);
      assert !IsAssertionFailure(failures[0]);
    }
  }

  // ----- plain assertions -----

  /** In a run ticks come one at a time, so only its last moment may be at the cap. */
  lemma {:induction false} RunTicks<S(!new)>(w: World<S>, start: S, cap: nat, maxOperations: nat, run: seq<Moment<S>>,
                          n: nat)
    requires Ticks(w) && IsRun(w, start, cap, maxOperations, run) && w.tick(start) <= cap && n < |run|
    ensures w.tick(run[n].state) <= cap && (n < |run| - 1 ==> w.tick(run[n].state) < cap)
  {
    hide Tick, Ticks;
    if n == 0 {
      ArrivalKeepsTick(w, start);
    } else {
      RunTicks(w, start, cap, maxOperations, run, n - 1);
      var m := run[n - 1];
      assert Follows(w, maxOperations, run[n - 1], run[n - 1 + 1]);
      TickAdvances(w, w.tick(m.state), m.state, maxOperations, m.operations);
      ArrivalKeepsTick(w, Tick(w, w.tick(m.state), m.state, maxOperations, m.operations).0);
    }
    assert n < |run| - 1 ==> GoesOn(w, cap, maxOperations, run[n]);
  }

  lemma PlainIsDecided<S(!new)>(w: World<S>, c: Case, limits: Limits, maxOperations: nat, start: S, run: seq<Moment<S>>,
                                last: S, failures: seq<Failure>)
    requires Ticks(w) && Evaluates(w, c) && w.tick(start) <= Min(c.maxTicks, limits.maxTicks)
    requires IsRun(w, start, Min(c.maxTicks, limits.maxTicks), maxOperations, run) && last == run[|run| - 1].state
    requires IsTrace(c, TraceOf(w, run))
    requires Reports(c, Min(c.maxTicks, limits.maxTicks), TraceOf(w, run), Observed(w, last), failures)
    ensures PlainVerdicts(w, c, limits, last, failures)
  {
    hide Reports, IsRun, Failed, Satisfied, Ticks;
    var cap, trace := Min(c.maxTicks, limits.maxTicks), TraceOf(w, run);
    assert |run| > 0 by { RunIsNotEmpty(w, start, cap, maxOperations, run); }
    forall n: nat | n < |trace| ensures trace[n].tick <= cap && (n < |trace| - 1 ==> trace[n].tick < cap) {
      RunTicks(w, start, cap, maxOperations, run, n);
    }
    forall i: nat | i < |c.assertions| && CheckedAtEnd(c.assertions[i])
      ensures !Reported(c, i, failures) <==>
        w.checks(last)[i] == Holds || (limits.maxTicks < c.maxTicks && w.tick(last) >= limits.maxTicks)
    {
      VerdictIsMeaning(c, i, cap, trace, Observed(w, last), failures);
      PlainMeans(c, i, cap, trace, Observed(w, last));
    }
  }

  lemma RunIsNotEmpty<S(!new)>(w: World<S>, start: S, cap: nat, maxOperations: nat, run: seq<Moment<S>>)
    requires Ticks(w) && IsRun(w, start, cap, maxOperations, run)
    ensures run != []
  {}

  /** On a trace whose ticks stay at or below the cap, only the last observation decides a plain assertion. */
  lemma PlainMeans(c: Case, i: nat, cap: nat, trace: seq<Observation>, last: Observation)
    requires i < |c.assertions| && IsTrace(c, trace) && trace != [] && Observes(c, last)
    requires CheckedAtEnd(c.assertions[i])
    requires last == trace[|trace| - 1] && cap <= c.maxTicks
    requires forall n: nat :: n < |trace| ==> trace[n].tick <= cap && (n < |trace| - 1 ==> trace[n].tick < cap)
    ensures Meets(c, i, cap, trace, last) <==> last.checks[i] == Holds || (cap < c.maxTicks && last.tick >= cap)
  {
    assert forall n :: 0 <= n < |trace| ==> (DueAt(c, i, trace, n) <==> trace[n].tick == c.maxTicks);
    if last.tick == c.maxTicks { assert DueAt(c, i, trace, |trace| - 1); }
  }

  /** A simulator that only counts ticks and in which the one assertion always fails. */
  datatype Clock = Clock(tick: nat)

  function Counter(): World<Clock> {
    World((s: Clock) => s.tick, (s: Clock) => Arrival(s, 0, false),
      (s: Clock) => Advanced(Clock(s.tick + 1), false, false),
          (s: Clock) => false, (s: Clock) => true, (s: Clock) => [Fails])
  }

  const ONE_PLAIN: Case := Case([Assertion(Plain, None, None)], 5)

  /** A run of one tick under a lower limit: the assertion fails throughout, and the empty report is right. */
  lemma SkippedPlainExists()
    ensures Ticks(Counter()) && Evaluates(Counter(), ONE_PLAIN)
    ensures var run := [Moment(Clock(0), 0), Moment(Clock(1), 0)];
      && IsRun(Counter(), Clock(0), Min(5, 1), 10, run) && !GoesOn(Counter(), 1, 10, run[1])
      && IsTrace(ONE_PLAIN, TraceOf(Counter(), run)) && TraceOf(Counter(), run)[1].checks[0] == Fails
      && Reports(ONE_PLAIN, 1, TraceOf(Counter(), run), Observed(Counter(), Clock(1)), [])
  {
    var w, run := Counter(), [Moment(Clock(0), 0), Moment(Clock(1), 0)];
    assert Tick(w, 0, Clock(1), 10, 0) == (Clock(1), 0, false);
    assert Tick(w, 0, Clock(0), 10, 0) == (Clock(1), 0, false);
    assert Follows(w, 10, run[0], run[1]);
    var trace := TraceOf(w, run);
    assert trace[..1] == [trace[0]] && trace[..1][..0] == [];
    assert !Failed(ONE_PLAIN, 0, trace[..1]);
    assert !Failed(ONE_PLAIN, 0, trace);
  }
}
