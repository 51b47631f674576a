/**
 * The queue in front of a model that can do one thing at a time, and the inference tasks it runs
 * (backend/src/ai/requestQueue.ts, `runInference` in backend/src/ai/localProvider.ts).
 *
 * A `generate` computation cannot be interrupted: it is named by the task that started it, and may settle at any time.
 */
module RequestQueue {

  datatype Phase =
    | Queued                            // waiting for the task ahead to settle
    | AwaitingHeld(work: set<nat>)      // the task ahead has settled; `held` was read as `work`
    | Started                           // the task runs, up to its call of `generate`
    | Generating                        // the task waits for its computation, or for the timeout
    | TimedOut                          // the timeout won
    | Registered                        // the abandoned computation is registered
    | Settled

  datatype QueueState = QueueState(tasks: seq<Phase>, held: set<nat>, unsettled: set<nat>, starts: seq<nat>)

  datatype Event =
    | Enqueue
    | TailSettled(i: nat)
    | Start(i: nat)
    | Fail(i: nat)                      // loading fails, or `generate` throws
    | Generate(i: nat)
    | GenerationSettled(i: nat)
    | Observe(i: nat)                   // the computation settled in time
    | TimeOut(i: nat)
    | Hold(i: nat)
    | Return(i: nat)

  predicate At(s: QueueState, i: nat, phase: Phase) {
    i < |s.tasks| && s.tasks[i] == phase
  }

  predicate Enabled(s: QueueState, e: Event) {
    match e
    case Enqueue => true
    case TailSettled(i) => At(s, i, Queued) && (i == 0 || s.tasks[i - 1].Settled?)
    case Start(i) => i < |s.tasks| && s.tasks[i].AwaitingHeld? && s.tasks[i].work !! s.unsettled
    case Fail(i) => At(s, i, Started)
    case Generate(i) => At(s, i, Started)
    case GenerationSettled(i) => i in s.unsettled
    case Observe(i) => At(s, i, Generating) && i !in s.unsettled
    case TimeOut(i) => At(s, i, Generating)
    case Hold(i) => At(s, i, TimedOut)
    case Return(i) => At(s, i, Registered)
  }

  function Move(s: QueueState, i: nat, phase: Phase): QueueState {
    if i < |s.tasks| then s.(tasks := s.tasks[i := phase]) else s
  }

  function Step(s: QueueState, e: Event): QueueState {
    match e
    case Enqueue => s.(tasks := s.tasks + [Queued])
    case TailSettled(i) => Move(s, i, AwaitingHeld(s.held))
    case Start(i) => Move(s, i, Started).(starts := s.starts + [i])
    case Fail(i) => Move(s, i, Settled)
    case Generate(i) => Move(s, i, Generating).(unsettled := s.unsettled + {i})
    case GenerationSettled(i) => s.(unsettled := s.unsettled - {i})
    case Observe(i) => Move(s, i, Settled)
    case TimeOut(i) => Move(s, i, TimedOut)
    case Hold(i) => Move(s, i, Registered).(held := s.held + {i})
    case Return(i) => Move(s, i, Settled)
  }

  const INITIAL := QueueState([], {}, {}, [])

  // ---- What holds in every state ----

  predicate Active(phase: Phase) {
    !phase.Queued? && !phase.Settled?
  }

  ghost predicate TaskInvariant(s: QueueState, i: nat)
    requires i < |s.tasks|
  {
    match s.tasks[i]
    case Queued => true
    case AwaitingHeld(work) => work == s.held && s.unsettled <= s.held
    case Started => s.unsettled == {}
    case Generating => s.unsettled <= {i}
    case TimedOut => s.unsettled <= {i}
    case Registered => s.unsettled <= {i} && i in s.held
    case Settled => true
  }

  predicate Begun(phase: Phase) {
    !phase.Queued? && !phase.AwaitingHeld?
  }

  ghost predicate InOrder(tasks: seq<Phase>) {
    forall i, j :: 0 <= i < j < |tasks| && !tasks[j].Queued? ==> tasks[i].Settled?
  }

  /** Tasks have started in the order they were enqueued, and `starts` lists exactly those that have. */
  ghost predicate StartsInOrder(s: QueueState) {
    && |s.starts| <= |s.tasks|
    && (forall i :: 0 <= i < |s.starts| ==> s.starts[i] == i)
    && forall i :: 0 <= i < |s.tasks| ==> (Begun(s.tasks[i]) <==> i < |s.starts|)
  }

  ghost predicate Invariant(s: QueueState) {
    && InOrder(s.tasks)
    && (forall i :: 0 <= i < |s.tasks| ==> TaskInvariant(s, i))
    && ((forall i :: 0 <= i < |s.tasks| ==> !Active(s.tasks[i])) ==> s.unsettled <= s.held)
    && |s.unsettled| <= 1
    && StartsInOrder(s)
  }

  /** In order, everything ahead of a task that is not queued has settled, and everything behind an unsettled task is queued. */
  lemma AroundActive(tasks: seq<Phase>, i: nat)
    requires InOrder(tasks) && i < |tasks| && !tasks[i].Settled?
    ensures forall k :: i < k < |tasks| ==> tasks[k].Queued?
    ensures !tasks[i].Queued? ==> forall k :: 0 <= k < i ==> tasks[k].Settled?
  {
  }

  lemma MoveKeepsOrder(s: QueueState, i: nat, phase: Phase)
    requires InOrder(s.tasks) && i < |s.tasks| && !s.tasks[i].Settled?
    requires forall k :: 0 <= k < i ==> s.tasks[k].Settled?
    ensures InOrder(Move(s, i, phase).tasks)
  {
    AroundActive(s.tasks, i);
  }

  /** The tasks around the one that moves keep what holds of them, because they are queued or settled. */
  lemma OthersRest(s: QueueState, i: nat, s': QueueState)
    requires InOrder(s.tasks) && i < |s.tasks| && !s.tasks[i].Settled? && |s'.tasks| == |s.tasks|
    requires forall k :: 0 <= k < i ==> s.tasks[k].Settled?
    requires forall k :: 0 <= k < |s.tasks| && k != i ==> s'.tasks[k] == s.tasks[k]
    ensures forall k :: 0 <= k < |s'.tasks| && k != i ==> TaskInvariant(s', k) && !Active(s'.tasks[k])
  {
    AroundActive(s.tasks, i);
  }

  lemma TailSettledKeeps(s: QueueState, i: nat)
    requires Invariant(s) && Enabled(s, TailSettled(i))
    ensures Invariant(Step(s, TailSettled(i)))
  {
    var s' := Step(s, TailSettled(i));
    AroundActive(s.tasks, i);
    forall k | 0 <= k < i ensures s.tasks[k].Settled? {
      if k < i - 1 { assert !s.tasks[i - 1].Queued?; }
    }
    MoveKeepsOrder(s, i, AwaitingHeld(s.held));
    OthersRest(s, i, s');
    assert s.unsettled <= s.held;
    assert Active(s'.tasks[i]);
  }

  /** Every move of a task that is already active, given what the new phase needs. */
  lemma ActiveMoveKeeps(s: QueueState, i: nat, phase: Phase, s': QueueState)
    requires Invariant(s) && i < |s.tasks| && Active(s.tasks[i]) && Begun(phase)
    requires s'.tasks == s.tasks[i := phase] && |s'.unsettled| <= 1 && StartsInOrder(s')
    requires TaskInvariant(s', i) && (phase.Settled? ==> s'.unsettled <= s'.held)
    ensures Invariant(s')
  {
    AroundActive(s.tasks, i);
    MoveKeepsOrder(s, i, phase);
    OthersRest(s, i, s');
    assert s'.tasks[i] == phase;
  }

  lemma SettlingKeeps(s: QueueState, g: nat)
    requires Invariant(s) && g in s.unsettled
    ensures Invariant(Step(s, GenerationSettled(g)))
  {
    var s' := Step(s, GenerationSettled(g));
    assert |s'.unsettled| == |s.unsettled| - 1;
    forall i | 0 <= i < |s'.tasks| ensures TaskInvariant(s', i) { assert TaskInvariant(s, i); }
  }

  lemma EnqueueKeeps(s: QueueState)
    requires Invariant(s)
    ensures Invariant(Step(s, Enqueue))
  {
    var s' := Step(s, Enqueue);
    forall i | 0 <= i < |s.tasks| ensures TaskInvariant(s', i) { assert TaskInvariant(s, i); }
    if forall i :: 0 <= i < |s'.tasks| ==> !Active(s'.tasks[i]) {
      forall i | 0 <= i < |s.tasks| ensures !Active(s.tasks[i]) { assert s'.tasks[i] == s.tasks[i]; }
    }
  }

  lemma StartKeeps(s: QueueState, i: nat)
    requires Invariant(s) && Enabled(s, Start(i))
    ensures Invariant(Step(s, Start(i)))
  {
    assert TaskInvariant(s, i);
    assert s.unsettled == {};
    AroundActive(s.tasks, i);
    StartsHere(s, i);
    ActiveMoveKeeps(s, i, Started, Step(s, Start(i)));
  }

  /** The task about to start is the one after all that have started. */
  lemma StartsHere(s: QueueState, i: nat)
    requires Invariant(s) && i < |s.tasks| && s.tasks[i].AwaitingHeld?
    ensures |s.starts| == i
  {
    AroundActive(s.tasks, i);
    assert !Begun(s.tasks[i]);
    if i > 0 { assert s.tasks[i - 1].Settled? && Begun(s.tasks[i - 1]); }
  }

  /** A task that settles leaves no computation that is not registered. */
  lemma SettledKeeps(s: QueueState, e: Event, i: nat)
    requires Invariant(s) && Enabled(s, e) && (e == Fail(i) || e == Observe(i) || e == Return(i))
    ensures Invariant(Step(s, e))
  {
    assert TaskInvariant(s, i);
    ActiveMoveKeeps(s, i, Settled, Step(s, e));
  }

  lemma ComputingKeeps(s: QueueState, e: Event, i: nat)
    requires Invariant(s) && Enabled(s, e) && (e == Generate(i) || e == TimeOut(i) || e == Hold(i))
    ensures Invariant(Step(s, e))
  {
    assert TaskInvariant(s, i);
    if e == Generate(i) {
      assert Step(s, e).unsettled == {i};
    }
    ActiveMoveKeeps(s, i, if e == Generate(i) then Generating else if e == TimeOut(i) then TimedOut else Registered, Step(s, e));
  }

  lemma StepKeeps(s: QueueState, e: Event)
    requires Invariant(s) && Enabled(s, e)
    ensures Invariant(Step(s, e))
  {
    match e
    case Enqueue => EnqueueKeeps(s);
    case TailSettled(i) => TailSettledKeeps(s, i);
    case Start(i) => StartKeeps(s, i);
    case Fail(i) => SettledKeeps(s, e, i);
    case Generate(i) => ComputingKeeps(s, e, i);
    case GenerationSettled(i) => SettlingKeeps(s, i);
    case Observe(i) => SettledKeeps(s, e, i);
    case TimeOut(i) => ComputingKeeps(s, e, i);
    case Hold(i) => ComputingKeeps(s, e, i);
    case Return(i) => SettledKeeps(s, e, i);
  }

  // ---- Whole runs ----

  function Run(s: QueueState, events: seq<Event>): QueueState
    decreases |events|
  {
    if events == [] then s else Run(Step(s, events[0]), events[1..])
  }

  predicate Possible(s: QueueState, events: seq<Event>)
    decreases |events|
  {
    events == [] || (Enabled(s, events[0]) && Possible(Step(s, events[0]), events[1..]))
  }

  lemma {:induction false} RunKeeps(s: QueueState, events: seq<Event>)
    requires Invariant(s) && Possible(s, events)
    ensures Invariant(Run(s, events))
    decreases |events|
  {
    if events != [] {
      StepKeeps(s, events[0]);
      RunKeeps(Step(s, events[0]), events[1..]);
    }
  }

  /** In every interleaving tasks start in the order they were enqueued, and at most one computation is unsettled. */
  lemma FirstInFirstOutOneAtATime(events: seq<Event>)
    requires Possible(INITIAL, events)
    ensures var s := Run(INITIAL, events);
            && |s.unsettled| <= 1
            && forall i :: 0 <= i < |s.starts| ==> s.starts[i] == i
  {
    RunKeeps(INITIAL, events);
  }

  /** A task calls `generate` only when nothing else is computing, abandoned work included. */
  lemma NothingElseComputes(events: seq<Event>, i: nat)
    requires Possible(INITIAL, events) && Enabled(Run(INITIAL, events), Generate(i))
    ensures Run(INITIAL, events).unsettled == {}
  {
    RunKeeps(INITIAL, events);
    assert TaskInvariant(Run(INITIAL, events), i);
  }

  /** Nothing is ruled out: tasks come at any time, loading or `generate` may fail, and a timeout may win however soon. */
  lemma AnythingMayHappen(events: seq<Event>, i: nat)
    requires Possible(INITIAL, events)
    ensures var s := Run(INITIAL, events);
            && Enabled(s, Enqueue)
            && (At(s, i, Started) ==> s.unsettled == {} && Enabled(s, Generate(i)) && Enabled(s, Fail(i)))
            && (At(s, i, Generating) ==> s.unsettled <= {i} && Enabled(s, TimeOut(i)) && (i in s.unsettled || Enabled(s, Observe(i))))
            && (i in s.unsettled ==> s.unsettled == {i} && Enabled(s, GenerationSettled(i)))
  {
    RunKeeps(INITIAL, events);
    var s := Run(INITIAL, events);
    if i < |s.tasks| { assert TaskInvariant(s, i); }
    if i in s.unsettled { OnlyOne(s.unsettled, i); }
  }

  lemma OnlyOne(work: set<nat>, i: nat)
    requires i in work && |work| <= 1
    ensures work == {i}
  {
    forall j | j in work ensures j == i { assert |work - {i}| == |work| - 1; }
  }

  // ---- Work that is waited for ----

  /** While held work has not settled no task can start. */
  lemma HeldWorkBlocks(s: QueueState, work: nat)
    requires Invariant(s) && work in s.held && work in s.unsettled
    ensures forall i: nat :: !Enabled(s, Start(i))
  {
    forall i: nat ensures !Enabled(s, Start(i)) {
      if i < |s.tasks| && s.tasks[i].AwaitingHeld? { assert TaskInvariant(s, i); }
    }
  }

  /** However a run goes on, nothing starts before held work settles. */
  lemma {:induction false} NothingStartsBeforeHeldWorkSettles(s: QueueState, events: seq<Event>, work: nat)
    requires Invariant(s) && Possible(s, events)
    requires work in s.held && work in s.unsettled && GenerationSettled(work) !in events
    ensures Run(s, events).starts == s.starts && work in Run(s, events).unsettled
    decreases |events|
  {
    if events != [] {
      HeldWorkBlocks(s, work);
      StepKeeps(s, events[0]);
      assert events[0] in events && events[0] != GenerationSettled(work);
      NothingStartsBeforeHeldWorkSettles(Step(s, events[0]), events[1..], work);
    }
  }

  /** A task that timed out is the only one that has begun and not settled, so no task has read `held` too early. */
  lemma HoldingKeeps(s: QueueState, work: nat)
    requires Invariant(s) && At(s, work, TimedOut)
    ensures Invariant(s.(held := s.held + {work}))
  {
    var s' := s.(held := s.held + {work});
    AroundActive(s.tasks, work);
    assert TaskInvariant(s, work) && Active(s'.tasks[work]);
    OthersRest(s, work, s');
  }

  // ---- The object ----

  /** The queue of a provider, with what its tasks and their computations have come to. */
  class InferenceQueue {
    var tasks: seq<Phase>
    var held: set<nat>
    var unsettled: set<nat>
    var starts: seq<nat>

    function State(): QueueState
      reads this
    {
      QueueState(tasks, held, unsettled, starts)
    }

    ghost predicate Valid()
      reads this
    {
      Invariant(State())
    }

    constructor ()
      ensures Valid() && State() == INITIAL
    {
      tasks, held, unsettled, starts := [], {}, {}, [];
    }

    /** Chains the task behind the current tail. It is the next one to start after all that are there. */
    method EnqueueTask() returns (ticket: nat)
      requires Valid()
      modifies this
      ensures Valid() && State() == Step(old(State()), Enqueue)
      ensures ticket == |old(tasks)| && tasks == old(tasks) + [Queued] && ticket !in starts
    {
      EnqueueKeeps(State());
      ticket := |tasks|;
      tasks := tasks + [Queued];
    }

    /** The callback on the tail reads `held` now, so everything that still computes is among what the task waits for. */
    method OnTailSettled(ticket: nat)
      requires Valid() && Enabled(State(), TailSettled(ticket))
      modifies this
      ensures Valid() && State() == Step(old(State()), TailSettled(ticket))
      ensures tasks == old(tasks)[ticket := AwaitingHeld(held)] && held == old(held)
      ensures tasks[ticket].AwaitingHeld? && unsettled <= tasks[ticket].work
      ensures forall i :: 0 <= i < ticket ==> tasks[i].Settled?
    {
      TailSettledKeeps(State(), ticket);
      tasks := tasks[ticket := AwaitingHeld(held)];
      assert TaskInvariant(State(), ticket);
    }

    /** A task starts in its turn, and nothing computes when it does. */
    method OnHeldSettled(ticket: nat)
      requires Valid() && Enabled(State(), Start(ticket))
      modifies this
      ensures Valid() && State() == Step(old(State()), Start(ticket))
      ensures tasks == old(tasks)[ticket := Started] && starts == old(starts) + [ticket]
      ensures ticket == |old(starts)| && unsettled == {}
    {
      StartsHere(State(), ticket);
      StartKeeps(State(), ticket);
      tasks := tasks[ticket := Started];
      starts := starts + [ticket];
      assert TaskInvariant(State(), ticket);
    }

    /** Loading fails or `generate` throws, and the task settles; or the task's computation is the only one there is. */
    method CallGenerate(ticket: nat, throws: bool)
      requires Valid() && Enabled(State(), Generate(ticket))
      modifies this
      ensures Valid() && State() == Step(old(State()), if throws then Fail(ticket) else Generate(ticket))
      ensures tasks == old(tasks)[ticket := if throws then Settled else Generating] && held == old(held)
      ensures old(unsettled) == {} && unsettled == if throws then {} else {ticket}
    {
      assert TaskInvariant(State(), ticket);
      if throws {
        SettledKeeps(State(), Fail(ticket), ticket);
        tasks := tasks[ticket := Settled];
      } else {
        ComputingKeeps(State(), Generate(ticket), ticket);
        tasks := tasks[ticket := Generating];
        unsettled := unsettled + {ticket};
      }
    }

    /** A computation settles, waited for or given up; it was the only one, so nothing computes any more. */
    method OnGenerationSettled(work: nat)
      requires Valid() && Enabled(State(), GenerationSettled(work))
      modifies this
      ensures Valid() && State() == Step(old(State()), GenerationSettled(work))
      ensures tasks == old(tasks) && unsettled == {}
    {
      SettlingKeeps(State(), work);
      assert |unsettled - {work}| == |unsettled| - 1;
      unsettled := unsettled - {work};
    }

    /** The task's computation settled in time, and the task settles with nothing left computing. */
    method OnAnswer(ticket: nat)
      requires Valid() && Enabled(State(), Observe(ticket))
      modifies this
      ensures Valid() && State() == Step(old(State()), Observe(ticket))
      ensures tasks == old(tasks)[ticket := Settled] && held == old(held) && unsettled == {}
    {
      assert TaskInvariant(State(), ticket);
      SettledKeeps(State(), Observe(ticket), ticket);
      tasks := tasks[ticket := Settled];
    }

    /** The timeout wins; the task's own computation is the only one that can go on. */
    method OnTimeout(ticket: nat)
      requires Valid() && Enabled(State(), TimeOut(ticket))
      modifies this
      ensures Valid() && State() == Step(old(State()), TimeOut(ticket))
      ensures tasks == old(tasks)[ticket := TimedOut] && unsettled == old(unsettled) <= {ticket}
    {
      assert TaskInvariant(State(), ticket);
      ComputingKeeps(State(), TimeOut(ticket), ticket);
      tasks := tasks[ticket := TimedOut];
    }

    /** From now on no task can start before `work` settles. */
    method HoldUntilSettled(work: nat)
      requires Valid() && At(State(), work, TimedOut)
      modifies this`held
      ensures Valid() && held == old(held) + {work}
      ensures work in unsettled ==> forall i: nat :: !Enabled(State(), Start(i))
    {
      HoldingKeeps(State(), work);
      held := held + {work};
      if work in unsettled { HeldWorkBlocks(State(), work); }
    }

    /**
     * The timeout branch of `runInference`. The computation is registered before the task settles, so as long as it
     * goes on no task can start, although the task itself is done.
     */
    method AbandonGeneration(ticket: nat)
      requires Valid() && Enabled(State(), Hold(ticket))
      modifies this
      ensures Valid() && State() == Step(Step(old(State()), Hold(ticket)), Return(ticket))
      ensures tasks == old(tasks)[ticket := Settled] && held == old(held) + {ticket} && unsettled == old(unsettled)
      ensures ticket in unsettled ==> forall i: nat :: !Enabled(State(), Start(i))
    {
      ghost var registered := Step(State(), Hold(ticket));
      ComputingKeeps(State(), Hold(ticket), ticket);
      HoldUntilSettled(ticket);
      SettledKeeps(registered, Return(ticket), ticket);
      tasks := tasks[ticket := Settled];
      assert Step(registered, Return(ticket)).tasks == tasks;
      assert State() == Step(registered, Return(ticket));
      if ticket in unsettled { HeldWorkBlocks(State(), ticket); }
    }
  }

  // ---- The queue drains ----

  function Weight(phase: Phase): nat {
    match phase
    case Queued => 12
    case AwaitingHeld(_) => 10
    case Started => 8
    case Generating => 6
    case TimedOut => 4
    case Registered => 2
    case Settled => 0
  }

  function TotalWeight(tasks: seq<Phase>): nat {
    if tasks == [] then 0 else Weight(tasks[0]) + TotalWeight(tasks[1..])
  }

  lemma {:induction false} WeightUpdate(tasks: seq<Phase>, i: nat, phase: Phase)
    requires i < |tasks|
    ensures TotalWeight(tasks[i := phase]) == TotalWeight(tasks) - Weight(tasks[i]) + Weight(phase)
  {
    if i == 0 {
      assert tasks[i := phase][1..] == tasks[1..];
    } else {
      assert tasks[i := phase][1..] == tasks[1..][i - 1 := phase];
      WeightUpdate(tasks[1..], i - 1, phase);
    }
  }

  function Remaining(s: QueueState): nat {
    TotalWeight(s.tasks) + |s.unsettled|
  }

  /** Every event other than a new task brings the queue closer to being drained. */
  lemma StepDrains(s: QueueState, e: Event)
    requires Enabled(s, e) && e != Enqueue
    ensures Remaining(Step(s, e)) < Remaining(s)
  {
    match e
    case TailSettled(i) => WeightUpdate(s.tasks, i, AwaitingHeld(s.held));
    case Start(i) => WeightUpdate(s.tasks, i, Started);
    case Fail(i) => WeightUpdate(s.tasks, i, Settled);
    case Generate(i) => WeightUpdate(s.tasks, i, Generating);
    case GenerationSettled(i) => assert |s.unsettled - {i}| == |s.unsettled| - 1;
    case Observe(i) => WeightUpdate(s.tasks, i, Settled);
    case TimeOut(i) => WeightUpdate(s.tasks, i, TimedOut);
    case Hold(i) => WeightUpdate(s.tasks, i, Registered);
    case Return(i) => WeightUpdate(s.tasks, i, Settled);
  }

  /** Without new tasks, a run is bounded. */
  lemma {:induction false} RunsAreBounded(s: QueueState, events: seq<Event>)
    requires Possible(s, events) && forall e :: e in events ==> e != Enqueue
    ensures |events| <= Remaining(s)
    decreases |events|
  {
    if events != [] {
      assert events[0] in events;
      StepDrains(s, events[0]);
      forall e | e in events[1..] ensures e != Enqueue { assert e in events; }
      RunsAreBounded(Step(s, events[0]), events[1..]);
    }
  }

  /** Nothing is ever stuck: while a task has not settled, something other than a new task can happen. */
  lemma NeverStuck(events: seq<Event>) returns (e: Event)
    requires Possible(INITIAL, events)
    requires exists i :: 0 <= i < |Run(INITIAL, events).tasks| && !Run(INITIAL, events).tasks[i].Settled?
    ensures e != Enqueue && Enabled(Run(INITIAL, events), e)
  {
    var s := Run(INITIAL, events);
    RunKeeps(INITIAL, events);
    var i := FirstUnsettled(s.tasks);
    match s.tasks[i]
    case Queued => e := TailSettled(i);
    case AwaitingHeld(work) =>
      if work !! s.unsettled {
        e := Start(i);
      } else {
        var g :| g in work && g in s.unsettled;
        e := GenerationSettled(g);
      }
    case Started => e := Fail(i);
    case Generating => e := TimeOut(i);
    case TimedOut => e := Hold(i);
    case Registered => e := Return(i);
    case Settled =>
  }

  lemma {:induction false} FirstUnsettled(tasks: seq<Phase>) returns (i: nat)
    requires exists k :: 0 <= k < |tasks| && !tasks[k].Settled?
    ensures i < |tasks| && !tasks[i].Settled? && forall k :: 0 <= k < i ==> tasks[k].Settled?
  {
    i := 0;
    while tasks[i].Settled?
      invariant i < |tasks| && forall k :: 0 <= k < i ==> tasks[k].Settled?
      invariant exists k :: i <= k < |tasks| && !tasks[k].Settled?
      decreases |tasks| - i
    {
      i := i + 1;
    }
  }
}
