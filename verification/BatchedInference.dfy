/**
 * The sequential batch runner with retries, stop conditions and abandoned waits
 * (`runBatchedInference` in backend/src/ai/requestBatching.ts).
 */
module BatchedInference {
  import opened RequestBatching
  import opened Sequences

  /** How waiting for one call ends: `Abandoned` when the cancel signal wins the race. */
  datatype Answer<D> = Resolved(data: D) | Rejected(errorCategory: string, errorMessage: string) | Abandoned

  /**
   * The outside world, over a clock that every look at the stop conditions and every wait advances. `stopped` is
   * whether `isTimedOut`, `isCancelled` or the cancel signal holds; `answer(i, a, t)` ends the wait for attempt `a`
   * at batch `i` that begins at time `t`.
   */
  datatype World<!D> = World(stopped: nat -> bool, answer: (nat, nat, nat) -> Answer<D>) {
    /** A stop condition that holds goes on holding. */
    ghost predicate StopsForGood() {
      forall t: nat, u: nat :: t <= u && stopped(t) ==> stopped(u)
    }

    /** A wait is abandoned only because the cancel signal is set by the time it ends. */
    ghost predicate AbandonsWhenStopped() {
      forall i: nat, a: nat, t: nat :: answer(i, a, t).Abandoned? ==> stopped(t + 1)
    }
  }

  datatype Event =
    | BatchStart(index: nat)
    | Call(index: nat, attempt: nat)
    | CallEnded(index: nat, attempt: nat)       // the call resolved or rejected
    | CallAbandoned(index: nat, attempt: nat)   // the wait for the call was given up; the call itself goes on
    | BatchRetry(index: nat, retryNumber: nat)
    | BatchSettled(index: nat, outcome: BatchOutcome)

  datatype BatchRun<T, D> = BatchRun(batch: seq<T>, outcome: BatchOutcome, data: Option<D>)

  /** `None` stands for an option that is missing or not a finite number. */
  function RetryLimit(retryFailedBatches: Option<real>): (limit: nat)
    ensures retryFailedBatches.None? || retryFailedBatches.value <= 0.0 ==> limit == 0
    ensures retryFailedBatches.Some? && retryFailedBatches.value > 0.0 ==>
              limit as real <= retryFailedBatches.value < (limit + 1) as real
  {
    if retryFailedBatches.Some? && retryFailedBatches.value > 0.0 then retryFailedBatches.value.Floor else 0
  }

  // ---- What happens to one batch ----

  /** Skipped because a stop condition holds, or tried: `retried` attempts were rejected and tried again, and `last` ended it. */
  datatype Trace<D> = Skipped | Tried(retried: nat, last: Answer<D>)

  function OutcomeOf<D>(trace: Trace<D>): BatchOutcome {
    if trace.Skipped? || trace.last.Abandoned? then NotAttempted
    else if trace.last.Resolved? then Success
    else Failed(trace.last.errorCategory, trace.last.errorMessage)
  }

  function DataOf<D>(trace: Trace<D>): Option<D> {
    if trace.Tried? && trace.last.Resolved? then Some(trace.last.data) else None
  }

  /** When attempt `a` of a batch looked at from `clock` on begins. */
  function AttemptTime(clock: nat, a: nat): nat {
    clock + 1 + 2 * a
  }

  /** The clock once the batch has settled. */
  function TimeAfter<D>(trace: Trace<D>, clock: nat, limit: nat): nat {
    if trace.Skipped? then clock + 1
    else AttemptTime(clock, trace.retried) + 1 + (if trace.last.Rejected? && trace.retried < limit then 1 else 0)
  }

  ghost predicate RetriedAt<D>(world: World<D>, index: nat, clock: nat, a: nat) {
    world.answer(index, a, AttemptTime(clock, a)).Rejected? && !world.stopped(AttemptTime(clock, a) + 1)
  }

  /** What the world makes of a batch looked at from `clock` on. */
  ghost predicate TraceAt<D>(world: World<D>, index: nat, clock: nat, limit: nat, trace: Trace<D>) {
    match trace
    case Skipped => world.stopped(clock)
    case Tried(retried, last) =>
      && !world.stopped(clock)
      && retried <= limit
      && (forall a :: 0 <= a < retried ==> RetriedAt(world, index, clock, a))
      && last == world.answer(index, retried, AttemptTime(clock, retried))
      && (last.Rejected? ==> retried == limit || world.stopped(AttemptTime(clock, retried) + 1))
  }

  function RetryEvents(index: nat, attempt: nat): seq<Event> {
    [Call(index, attempt), CallEnded(index, attempt), BatchRetry(index, attempt + 1)]
  }

  /** The calls of attempts `0 .. n-1`, each ended and followed by a retry. */
  function RetriedEvents(index: nat, n: nat): seq<Event> {
    if n == 0 then [] else RetriedEvents(index, n - 1) + RetryEvents(index, n - 1)
  }

  /** How the wait for the last call ends. */
  function WaitEnd<D>(index: nat, attempt: nat, last: Answer<D>): Event {
    if last.Abandoned? then CallAbandoned(index, attempt) else CallEnded(index, attempt)
  }

  function LastEvents<D>(index: nat, attempt: nat, last: Answer<D>, outcome: BatchOutcome): seq<Event> {
    [Call(index, attempt), WaitEnd(index, attempt, last), BatchSettled(index, outcome)]
  }

  function EventsOf<D>(index: nat, trace: Trace<D>): seq<Event> {
    if trace.Skipped? then [BatchSettled(index, NotAttempted)]
    else [BatchStart(index)] + RetriedEvents(index, trace.retried) + LastEvents(index, trace.retried, trace.last, OutcomeOf(trace))
  }

  method RunBatch<D>(world: World<D>, index: nat, clock: nat, limit: nat)
    returns (outcome: BatchOutcome, data: Option<D>, events: seq<Event>, clock': nat, ghost trace: Trace<D>)
    ensures TraceAt(world, index, clock, limit, trace) && clock' == TimeAfter(trace, clock, limit)
    ensures outcome == OutcomeOf(trace) && data == DataOf(trace) && events == EventsOf(index, trace)
  {
    clock' := clock + 1;
    if world.stopped(clock) {
      return NotAttempted, None, [BatchSettled(index, NotAttempted)], clock', Skipped;
    }
    events := [BatchStart(index)];
    var attempt := 0;
    while true
      invariant 0 <= attempt <= limit && clock' == AttemptTime(clock, attempt)
      invariant forall a :: 0 <= a < attempt ==> RetriedAt(world, index, clock, a)
      invariant events == [BatchStart(index)] + RetriedEvents(index, attempt)
      decreases limit - attempt
    {
      events := events + [Call(index, attempt)];
      var answer := world.answer(index, attempt, clock');
      clock' := clock' + 1;
      trace := Tried(attempt, answer);
      match answer {
        case Abandoned =>
          events := events + [CallAbandoned(index, attempt)];
          outcome, data := NotAttempted, None;
          break;
        case Resolved(value) =>
          events := events + [CallEnded(index, attempt)];
          outcome, data := Success, Some(value);
          break;
        case Rejected(errorCategory, errorMessage) =>
          events := events + [CallEnded(index, attempt)];
          if attempt < limit {
            clock' := clock' + 1;
            if !world.stopped(clock' - 1) {
              attempt := attempt + 1;
              events := events + [BatchRetry(index, attempt)];
              continue;
            }
          }
          outcome, data := Failed(errorCategory, errorMessage), None;
          break;
      }
    }
    events := events + [BatchSettled(index, outcome)];
  }

  // ---- The whole run ----

  function ClockAt<D>(traces: seq<Trace<D>>, limit: nat): nat {
    if traces == [] then 0
    else TimeAfter(traces[|traces| - 1], ClockAt(traces[..|traces| - 1], limit), limit)
  }

  ghost predicate Happened<D>(world: World<D>, limit: nat, traces: seq<Trace<D>>, k: nat)
    requires k < |traces|
  {
    TraceAt(world, k, ClockAt(traces[..k], limit), limit, traces[k])
  }

  ghost predicate AreTraces<D>(world: World<D>, limit: nat, traces: seq<Trace<D>>) {
    forall k {:trigger Happened(world, limit, traces, k)} :: 0 <= k < |traces| ==> Happened(world, limit, traces, k)
  }

  function AllEvents<D>(traces: seq<Trace<D>>): seq<Event> {
    if traces == [] then []
    else AllEvents(traces[..|traces| - 1]) + EventsOf(|traces| - 1, traces[|traces| - 1])
  }

  function RunOf<T, D>(batch: seq<T>, trace: Trace<D>): BatchRun<T, D> {
    BatchRun(batch, OutcomeOf(trace), DataOf(trace))
  }

  /** One run per batch, in order, each recording what happened to it. */
  ghost predicate AreRuns<T, D>(batches: seq<seq<T>>, traces: seq<Trace<D>>, runs: seq<BatchRun<T, D>>) {
    |runs| == |traces| <= |batches| && forall k :: 0 <= k < |runs| ==> runs[k] == RunOf(batches[k], traces[k])
  }

  function OutcomeOfRun<T, D>(r: BatchRun<T, D>): BatchOutcome {
    r.outcome
  }

  lemma TracePush<D>(world: World<D>, limit: nat, traces: seq<Trace<D>>, trace: Trace<D>)
    requires AreTraces(world, limit, traces) && TraceAt(world, |traces|, ClockAt(traces, limit), limit, trace)
    ensures AreTraces(world, limit, traces + [trace])
    ensures ClockAt(traces + [trace], limit) == TimeAfter(trace, ClockAt(traces, limit), limit)
    ensures AllEvents(traces + [trace]) == AllEvents(traces) + EventsOf(|traces|, trace)
  {
    var longer := traces + [trace];
    assert longer[..|traces|] == traces;
    forall k | 0 <= k < |longer| ensures Happened(world, limit, longer, k) {
      if k < |traces| {
        assert longer[..k] == traces[..k];
        assert Happened(world, limit, traces, k);
      }
    }
  }

  lemma RunOutcomes<T, D>(batches: seq<seq<T>>, traces: seq<Trace<D>>, runs: seq<BatchRun<T, D>>)
    requires AreRuns(batches, traces, runs)
    ensures Map(runs, OutcomeOfRun) == Map(traces, OutcomeOf)
  {
  }

  method RunBatchedInference<T, D>(batches: seq<seq<T>>, world: World<D>, retryFailedBatches: Option<real>)
    returns (runs: seq<BatchRun<T, D>>, aggregate: Aggregate, events: seq<Event>, ghost traces: seq<Trace<D>>)
    ensures AreTraces(world, RetryLimit(retryFailedBatches), traces) && |traces| == |batches|
    ensures AreRuns(batches, traces, runs) && events == AllEvents(traces)
    ensures aggregate == DeriveAggregateOutcome(Map(traces, OutcomeOf))
  {
    var limit, clock := RetryLimit(retryFailedBatches), 0;
    runs, events, traces := [], [], [];
    for index := 0 to |batches|
      invariant |traces| == index && AreTraces(world, limit, traces) && clock == ClockAt(traces, limit)
      invariant AreRuns(batches, traces, runs) && events == AllEvents(traces)
    {
      var outcome, data, more, after, trace := RunBatch(world, index, clock, limit);
      TracePush(world, limit, traces, trace);
      runs := runs + [BatchRun(batches[index], outcome, data)];
      events, clock, traces := events + more, after, traces + [trace];
    }
    aggregate := DeriveAggregateOutcome(Map(runs, OutcomeOfRun));
    RunOutcomes(batches, traces, runs);
  }

  // ---- What the runner promises ----

  /** Once a batch is not attempted, a stop condition holds, so the next batch is skipped without a call. */
  lemma NotAttemptedGoesOn<D>(world: World<D>, limit: nat, traces: seq<Trace<D>>, k: nat)
    requires world.StopsForGood() && world.AbandonsWhenStopped() && AreTraces(world, limit, traces)
    requires k + 1 < |traces| && OutcomeOf(traces[k]).NotAttempted?
    ensures traces[k + 1].Skipped?
  {
    var clock := ClockAt(traces[..k], limit);
    assert Happened(world, limit, traces, k) && Happened(world, limit, traces, k + 1);
    assert traces[..k + 1][..k] == traces[..k];
    var next := ClockAt(traces[..k + 1], limit);
    assert next == TimeAfter(traces[k], clock, limit);
    if traces[k].Skipped? {
      assert world.stopped(clock);
    } else {
      assert world.stopped(AttemptTime(clock, traces[k].retried) + 1);
    }
    assert world.stopped(next);
  }

  /** The outcomes are attempted batches, then batches not attempted; after the first of those nothing is called any more. */
  lemma {:induction false} AttemptedThenNot<D>(world: World<D>, limit: nat, traces: seq<Trace<D>>, i: nat, j: nat)
    requires world.StopsForGood() && world.AbandonsWhenStopped() && AreTraces(world, limit, traces)
    requires i < j < |traces| && OutcomeOf(traces[i]).NotAttempted?
    ensures traces[j].Skipped? && EventsOf(j, traces[j]) == [BatchSettled(j, NotAttempted)]
    decreases j
  {
    if i + 1 < j { AttemptedThenNot(world, limit, traces, i, j - 1); }
    NotAttemptedGoesOn(world, limit, traces, j - 1);
  }

  /** A new batch is called only when no stop condition holds, and then the stop condition had not held before either. */
  lemma NoCallAfterStop<D>(world: World<D>, limit: nat, traces: seq<Trace<D>>, k: nat, t: nat)
    requires world.StopsForGood() && AreTraces(world, limit, traces) && k < |traces|
    requires t <= ClockAt(traces[..k], limit) && world.stopped(t)
    ensures traces[k].Skipped?
  {
    assert Happened(world, limit, traces, k);
    assert world.stopped(ClockAt(traces[..k], limit));
  }

  predicate IsSettled(e: Event) {
    e.BatchSettled?
  }

  predicate IsCall(e: Event) {
    e.Call?
  }

  lemma FilterOne(e: Event, keep: Event -> bool)
    ensures Filter([e], keep) == if keep(e) then [e] else []
  {
    assert [e][1..] == [];
  }

  lemma FilterJoins(a: seq<Event>, b: seq<Event>, p: seq<Event>, q: seq<Event>, keep: Event -> bool)
    requires Filter(a, keep) == p && Filter(b, keep) == q
    ensures Filter(a + b, keep) == p + q
  {
    FilterAppend(a, b, keep);
  }

  lemma FilterParts(a: seq<Event>, b: seq<Event>, c: seq<Event>, keep: Event -> bool)
    ensures Filter(a + b + c, keep) == Filter(a, keep) + Filter(b, keep) + Filter(c, keep)
  {
    FilterAppend(a + b, c, keep);
    FilterAppend(a, b, keep);
  }

  lemma FilterThree(a: Event, b: Event, c: Event, keep: Event -> bool)
    ensures Filter([a, b, c], keep)
         == (if keep(a) then [a] else []) + (if keep(b) then [b] else []) + (if keep(c) then [c] else [])
  {
    FilterParts([a], [b], [c], keep);
    assert [a] + [b] + [c] == [a, b, c];
    FilterOne(a, keep);
    FilterOne(b, keep);
    FilterOne(c, keep);
  }

  /** `onBatchSettled` fires once for a batch. */
  lemma SettledOnce<D>(index: nat, trace: Trace<D>)
    ensures Filter(EventsOf(index, trace), IsSettled) == [BatchSettled(index, OutcomeOf(trace))]
  {
    if trace.Skipped? {
      FilterOne(BatchSettled(index, NotAttempted), IsSettled);
    } else {
      FilterParts([BatchStart(index)], RetriedEvents(index, trace.retried), LastEvents(index, trace.retried, trace.last, OutcomeOf(trace)), IsSettled);
      FilterOne(BatchStart(index), IsSettled);
      RetriesDoNotSettle(index, trace.retried);
      FilterThree(Call(index, trace.retried), WaitEnd(index, trace.retried, trace.last), BatchSettled(index, OutcomeOf(trace)), IsSettled);
    }
  }

  lemma {:induction false} RetriesDoNotSettle(index: nat, n: nat)
    ensures Filter(RetriedEvents(index, n), IsSettled) == []
  {
    if n > 0 {
      RetriesDoNotSettle(index, n - 1);
      FilterAppend(RetriedEvents(index, n - 1), RetryEvents(index, n - 1), IsSettled);
      FilterThree(Call(index, n - 1), CallEnded(index, n - 1), BatchRetry(index, n), IsSettled);
    }
  }

  function SettledEvents<D>(traces: seq<Trace<D>>): seq<Event> {
    seq(|traces|, k requires 0 <= k < |traces| => BatchSettled(k, OutcomeOf(traces[k])))
  }

  /** `onBatchSettled` fires exactly once per index, in order, with the batch's outcome. */
  lemma {:induction false} SettledOncePerIndex<D>(traces: seq<Trace<D>>)
    ensures Filter(AllEvents(traces), IsSettled) == SettledEvents(traces)
  {
    if traces != [] {
      var init, k := traces[..|traces| - 1], |traces| - 1;
      SettledOncePerIndex(init);
      FilterAppend(AllEvents(init), EventsOf(k, traces[k]), IsSettled);
      SettledOnce(k, traces[k]);
      assert SettledEvents(traces) == SettledEvents(init) + [BatchSettled(k, OutcomeOf(traces[k]))];
    }
  }

  // ---- The calls of a batch ----

  function CallCount<D>(trace: Trace<D>): nat {
    if trace.Skipped? then 0 else trace.retried + 1
  }

  function Calls(index: nat, n: nat): seq<Event> {
    if n == 0 then [] else Calls(index, n - 1) + [Call(index, n - 1)]
  }

  lemma {:induction false} RetryCalls(index: nat, n: nat)
    ensures Filter(RetriedEvents(index, n), IsCall) == Calls(index, n)
  {
    if n > 0 {
      RetryCalls(index, n - 1);
      FilterThree(Call(index, n - 1), CallEnded(index, n - 1), BatchRetry(index, n), IsCall);
      FilterJoins(RetriedEvents(index, n - 1), RetryEvents(index, n - 1), Calls(index, n - 1), [Call(index, n - 1)], IsCall);
    }
  }

  /** The calls of a batch are its attempts, in order. */
  lemma CallsMade<D>(index: nat, trace: Trace<D>)
    ensures Filter(EventsOf(index, trace), IsCall) == Calls(index, CallCount(trace))
  {
    if trace.Skipped? {
      FilterOne(BatchSettled(index, NotAttempted), IsCall);
    } else {
      var n, outcome := trace.retried, OutcomeOf(trace);
      FilterParts([BatchStart(index)], RetriedEvents(index, n), LastEvents(index, n, trace.last, outcome), IsCall);
      FilterOne(BatchStart(index), IsCall);
      RetryCalls(index, n);
      FilterThree(Call(index, n), WaitEnd(index, n, trace.last), BatchSettled(index, outcome), IsCall);
    }
  }

  /** A batch is called at most once more than the retry limit, and not at all when a stop condition holds. */
  lemma CallsAreLimited<D>(world: World<D>, limit: nat, traces: seq<Trace<D>>, k: nat)
    requires AreTraces(world, limit, traces) && k < |traces|
    ensures Filter(EventsOf(k, traces[k]), IsCall) == Calls(k, CallCount(traces[k])) && CallCount(traces[k]) <= 1 + limit
    ensures world.stopped(ClockAt(traces[..k], limit)) ==> CallCount(traces[k]) == 0
  {
    assert Happened(world, limit, traces, k);
    CallsMade(k, traces[k]);
  }

  // ---- Calls never overlap ----

  ghost predicate EndedBetween(events: seq<Event>, p: nat, q: nat)
    requires p < q <= |events| && events[p].Call?
  {
    exists r :: p < r < q && events[r] == CallEnded(events[p].index, events[p].attempt)
  }

  /** Between a call and the next the earlier one has resolved or rejected, and nothing is called once a wait was given up. */
  ghost predicate InTurn(events: seq<Event>) {
    forall p, q :: 0 <= p < q < |events| && events[q].Call? ==>
      !events[p].CallAbandoned? && (events[p].Call? ==> EndedBetween(events, p, q))
  }

  /** Every call has resolved or rejected. */
  ghost predicate AllEnded(events: seq<Event>) {
    forall p :: 0 <= p < |events| ==> !events[p].CallAbandoned? && (events[p].Call? ==> EndedBetween(events, p, |events|))
  }

  ghost predicate CallsNothing(events: seq<Event>) {
    forall p :: 0 <= p < |events| ==> !events[p].Call?
  }

  /** A call that has ended inside one stretch of events has ended inside any longer one. */
  lemma EndedInside(a: seq<Event>, b: seq<Event>, c: seq<Event>, p: nat, q: nat)
    requires p < q <= |b| && b[p].Call? && EndedBetween(b, p, q)
    ensures EndedBetween(a + b + c, |a| + p, |a| + q)
  {
    var r :| p < r < q && b[r] == CallEnded(b[p].index, b[p].attempt);
    var all := a + b + c;
    assert all[|a| + p] == b[p] && all[|a| + r] == b[r];
  }

  lemma EndedLater(events: seq<Event>, p: nat, q: nat, q': nat)
    requires p < q <= q' <= |events| && events[p].Call? && EndedBetween(events, p, q)
    ensures EndedBetween(events, p, q')
  {
  }

  lemma AllEndedJoin(a: seq<Event>, b: seq<Event>)
    requires AllEnded(a) && AllEnded(b)
    ensures AllEnded(a + b)
  {
    var all := a + b;
    forall p | 0 <= p < |all| ensures !all[p].CallAbandoned? && (all[p].Call? ==> EndedBetween(all, p, |all|)) {
      if p < |a| {
        assert all[p] == a[p];
        if a[p].Call? {
          EndedInside([], a, b, p, |a|);
          assert [] + a + b == all;
          EndedLater(all, p, |a|, |all|);
        }
      } else {
        assert all[p] == b[p - |a|];
        if all[p].Call? {
          EndedInside(a, b, [], p - |a|, |b|);
          assert a + b + [] == all;
        }
      }
    }
  }

  lemma InTurnJoin(a: seq<Event>, b: seq<Event>)
    requires InTurn(a) && InTurn(b) && (AllEnded(a) || CallsNothing(b))
    ensures InTurn(a + b)
  {
    var all := a + b;
    assert [] + a + b == all == a + b + [];
    forall p, q | 0 <= p < q < |all| && all[q].Call?
      ensures !all[p].CallAbandoned? && (all[p].Call? ==> EndedBetween(all, p, q))
    {
      if q < |a| {
        assert all[p] == a[p] && all[q] == a[q];
        if a[p].Call? { EndedInside([], a, b, p, q); }
      } else if p < |a| {
        assert all[p] == a[p] && all[q] == b[q - |a|];
        if a[p].Call? {
          EndedInside([], a, b, p, |a|);
          EndedLater(all, p, |a|, q);
        }
      } else {
        assert all[p] == b[p - |a|] && all[q] == b[q - |a|];
        if all[p].Call? { EndedInside(a, b, [], p - |a|, q - |a|); }
      }
    }
  }

  lemma {:induction false} RetriesInTurn(index: nat, n: nat)
    ensures InTurn(RetriedEvents(index, n)) && AllEnded(RetriedEvents(index, n))
  {
    if n > 0 {
      RetriesInTurn(index, n - 1);
      var last := RetryEvents(index, n - 1);
      assert last[1] == CallEnded(last[0].index, last[0].attempt);
      AllEndedJoin(RetriedEvents(index, n - 1), last);
      InTurnJoin(RetriedEvents(index, n - 1), last);
    }
  }

  predicate GivenUp<D>(trace: Trace<D>) {
    trace.Tried? && trace.last.Abandoned?
  }

  lemma BatchInTurn<D>(index: nat, trace: Trace<D>)
    ensures InTurn(EventsOf(index, trace))
    ensures !GivenUp(trace) ==> AllEnded(EventsOf(index, trace))
    ensures trace.Skipped? ==> CallsNothing(EventsOf(index, trace))
  {
    if trace.Tried? {
      var start, retries := [BatchStart(index)], RetriedEvents(index, trace.retried);
      var last := LastEvents(index, trace.retried, trace.last, OutcomeOf(trace));
      RetriesInTurn(index, trace.retried);
      AllEndedJoin(start, retries);
      InTurnJoin(start, retries);
      InTurnJoin(start + retries, last);
      if !GivenUp(trace) {
        assert last[1] == CallEnded(last[0].index, last[0].attempt);
        AllEndedJoin(start + retries, last);
      }
    }
  }

  lemma TracesBefore<D>(world: World<D>, limit: nat, traces: seq<Trace<D>>)
    requires AreTraces(world, limit, traces) && traces != []
    ensures AreTraces(world, limit, traces[..|traces| - 1])
  {
    var init := traces[..|traces| - 1];
    forall k | 0 <= k < |init| ensures Happened(world, limit, init, k) {
      assert Happened(world, limit, traces, k) && init[..k] == traces[..k];
    }
  }

  /**
   * In the whole run calls never overlap: every call comes after the end of every earlier one. A call whose wait is
   * given up may go on running, and it is the last call of the run.
   */
  lemma {:induction false} CallsNeverOverlap<D>(world: World<D>, limit: nat, traces: seq<Trace<D>>)
    requires world.StopsForGood() && world.AbandonsWhenStopped() && AreTraces(world, limit, traces)
    ensures InTurn(AllEvents(traces))
    ensures (forall k :: 0 <= k < |traces| ==> !GivenUp(traces[k])) ==> AllEnded(AllEvents(traces))
  {
    if traces != [] {
      var n := |traces| - 1;
      var init := traces[..n];
      TracesBefore(world, limit, traces);
      CallsNeverOverlap(world, limit, init);
      BatchInTurn(n, traces[n]);
      if k :| 0 <= k < n && GivenUp(traces[k]) {
        AttemptedThenNot(world, limit, traces, k, n);
      } else {
        assert forall k :: 0 <= k < n ==> init[k] == traces[k];
        if !GivenUp(traces[n]) { AllEndedJoin(AllEvents(init), EventsOf(n, traces[n])); }
      }
      InTurnJoin(AllEvents(init), EventsOf(n, traces[n]));
    }
  }

  /** Giving up a wait without being told to stop would make calls overlap: the next batch is called while the call goes on. */
  lemma GivingUpEarlyOverlaps()
    ensures var world: World<int> := World((t: nat) => false, (i: nat, a: nat, t: nat) => Abandoned);
            var traces: seq<Trace<int>> := [Tried(0, Abandoned), Tried(0, Abandoned)];
            world.StopsForGood() && AreTraces(world, 0, traces) && !InTurn(AllEvents(traces))
  {
    var world: World<int> := World((t: nat) => false, (i: nat, a: nat, t: nat) => Abandoned);
    var traces: seq<Trace<int>> := [Tried(0, Abandoned), Tried(0, Abandoned)];
    assert Happened(world, 0, traces, 0) && Happened(world, 0, traces, 1);
    var first, second := EventsOf(0, traces[0]), EventsOf(1, traces[1]);
    assert first == [BatchStart(0), Call(0, 0), CallAbandoned(0, 0), BatchSettled(0, NotAttempted)];
    assert second == [BatchStart(1), Call(1, 0), CallAbandoned(1, 0), BatchSettled(1, NotAttempted)];
    assert traces[..1] == [traces[0]] && [traces[0]][..0] == [];
    assert AllEvents([traces[0]]) == first;
    assert AllEvents(traces) == first + second;
    assert AllEvents(traces)[2].CallAbandoned? && AllEvents(traces)[5] == second[1];
  }
}
