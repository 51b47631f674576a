/**
 * The executor of generated collections: one result for every scenario, dependents of a blocking failure
 * withheld (backend/src/execution/runExecution.ts).
 */
module RunExecution {
  import opened ExecutionOrder
  import opened Sequences

  type Environment = map<string, string>

  datatype Scenario = Scenario(id: string, operationPath: string, operationMethod: string)

  datatype Outcome = Passed | Failed(failureCategory: string)

  /** What running one item ends in: an exception, or an outcome and the environment its scripts leave behind. */
  datatype Attempt = Threw | Ran(outcome: Outcome, environment: Environment)

  datatype Reason = Cancelled | DependencyNotMet | RunEndedBeforeReached

  datatype Unmet = Unmet(scenarioId: string, operationPath: string, operationMethod: string)

  datatype Verdict = Attempted(outcome: Outcome) | NotAttempted(reason: Reason, unmetDependencies: seq<Unmet>)

  datatype RequestResult = RequestResult(scenarioId: string, operationPath: string, operationMethod: string, verdict: Verdict)

  datatype Status = SettledCompleted | SettledCancelled

  /**
   * Everything outside the executor. `run(i, item, env)` is what the runner answers at position `i`; the cancel
   * flags are those read at the top of turn `i` and after its pause.
   */
  datatype World = World(
    scenarioById: map<string, Scenario>,
    dataDependencies: map<string, seq<string>>,
    environment: Environment,
    pauses: bool,
    run: (nat, Item, Environment) -> Attempt,
    cancelAtTurn: nat -> bool,
    cancelAfterPause: nat -> bool)
  {
    /** Scenarios are filed under their own ids. */
    ghost predicate Valid() {
      forall id :: id in scenarioById ==> scenarioById[id].id == id
    }

    predicate CancelledAt(i: nat) {
      cancelAtTurn(i) || (i > 0 && pauses && cancelAfterPause(i))
    }

    /** No cancellation is seen before turn `n`. */
    predicate RunsOnUntil(n: nat) {
      n == 0 || (RunsOnUntil(n - 1) && !CancelledAt(n - 1))
    }
  }

  predicate IsBlocking(outcome: Outcome) {
    outcome.Failed? && outcome.failureCategory != "assertion-failed"
  }

  // ---- What becomes of each item ----

  /** A synthesized item runs unreported; a scenario-backed item is withheld for unmet producers, or sent. */
  datatype Fate = Unreported(outcome: Outcome, after: Environment) | Withheld(unmet: seq<string>) | Sent(outcome: Outcome, after: Environment)

  function EnvironmentAfter(initial: Environment, fates: seq<Fate>): Environment {
    if fates == [] then initial
    else
      match fates[|fates| - 1]
      case Unreported(_, after) => after
      case Sent(_, after) => after
      case Withheld(_) => EnvironmentAfter(initial, fates[..|fates| - 1])
  }

  predicate Blocks(fate: Fate) {
    fate.Withheld? || (fate.Sent? && IsBlocking(fate.outcome))
  }

  function BlockedIds(order: seq<Item>, fates: seq<Fate>): set<string>
    requires |fates| <= |order|
  {
    if fates == [] then {}
    else
      var n := |fates| - 1;
      BlockedIds(order, fates[..n]) + (if Blocks(fates[n]) then {order[n].id} else {})
  }

  function DependenciesOf(world: World, id: string): seq<string> {
    if id in world.dataDependencies then world.dataDependencies[id] else []
  }

  function IsIn(ids: set<string>): string -> bool {
    (id: string) => id in ids
  }

  function UnmetProducers(world: World, id: string, blocked: set<string>): seq<string> {
    Filter(DependenciesOf(world, id), IsIn(blocked))
  }

  /** The fate of the next item, or `None` when the turn throws. */
  function NextFate(world: World, order: seq<Item>, fates: seq<Fate>): Option<Fate>
    requires |fates| < |order|
  {
    var item := order[|fates|];
    var attempt := world.run(|fates|, item, EnvironmentAfter(world.environment, fates));
    if item.scenarioId.None? then
      if attempt.Threw? then None else Some(Unreported(attempt.outcome, attempt.environment))
    else if item.scenarioId.value !in world.scenarioById then None
    else
      var unmet := UnmetProducers(world, item.id, BlockedIds(order, fates));
      if unmet != [] then Some(Withheld(unmet))
      else if attempt.Threw? then None
      else Some(Sent(attempt.outcome, attempt.environment))
  }

  ghost predicate FateAt(world: World, order: seq<Item>, fates: seq<Fate>, k: nat) {
    k < |fates| && k < |order| && NextFate(world, order, fates[..k]) == Some(fates[k])
  }

  ghost predicate AreFates(world: World, order: seq<Item>, fates: seq<Fate>) {
    |fates| <= |order| && forall k {:trigger FateAt(world, order, fates, k)} :: 0 <= k < |fates| ==> FateAt(world, order, fates, k)
  }

  // ---- What is recorded ----

  /** Item ids to scenario ids, a later item overriding an earlier one. */
  function ScenarioIdByItemId(order: seq<Item>): map<string, string> {
    if order == [] then map[]
    else
      var last := order[|order| - 1];
      var before := ScenarioIdByItemId(order[..|order| - 1]);
      if last.scenarioId.Some? then before[last.id := last.scenarioId.value] else before
  }

  function UnmetOf(world: World, scenarioIdByItemId: map<string, string>): string -> Unmet {
    (producerId: string) =>
      var id := if producerId in scenarioIdByItemId then scenarioIdByItemId[producerId] else "";
      if id in world.scenarioById then
        var producer := world.scenarioById[id];
        Unmet(producer.id, producer.operationPath, producer.operationMethod)
      else Unmet(id, "", "")
  }

  function ResultFor(world: World, scenarioId: string, verdict: Verdict): RequestResult {
    if scenarioId in world.scenarioById then
      var scenario := world.scenarioById[scenarioId];
      RequestResult(scenario.id, scenario.operationPath, scenario.operationMethod, verdict)
    else RequestResult(scenarioId, "", "", verdict)
  }

  function ResultsOf(world: World, order: seq<Item>, item: Item, fate: Fate): seq<RequestResult> {
    if item.scenarioId.None? || fate.Unreported? then []
    else if fate.Sent? then [ResultFor(world, item.scenarioId.value, Attempted(fate.outcome))]
    else [ResultFor(world, item.scenarioId.value,
                    NotAttempted(DependencyNotMet, Map(fate.unmet, UnmetOf(world, ScenarioIdByItemId(order)))))]
  }

  function ReachedResults(world: World, order: seq<Item>, fates: seq<Fate>): seq<RequestResult>
    requires |fates| <= |order|
  {
    if fates == [] then []
    else
      var n := |fates| - 1;
      ReachedResults(world, order, fates[..n]) + ResultsOf(world, order, order[n], fates[n])
  }

  function NotAttemptedOne(world: World, item: Item, reason: Reason): seq<RequestResult> {
    if item.scenarioId.Some? then [ResultFor(world, item.scenarioId.value, NotAttempted(reason, []))] else []
  }

  function NotAttemptedResults(world: World, items: seq<Item>, reason: Reason): seq<RequestResult> {
    if items == [] then [] else NotAttemptedOne(world, items[0], reason) + NotAttemptedResults(world, items[1..], reason)
  }

  function ScenarioIds(items: seq<Item>): seq<string> {
    if items == [] then []
    else (if items[0].scenarioId.Some? then [items[0].scenarioId.value] else []) + ScenarioIds(items[1..])
  }

  function ResultScenario(r: RequestResult): string {
    r.scenarioId
  }

  // ---- The executor ----

  class RunStore {
    var results: seq<RequestResult>
    var status: Option<Status>

    constructor ()
      ensures results == [] && status == None
    {
      results, status := [], None;
    }

    method AppendResult(r: RequestResult)
      modifies this`results
      ensures results == old(results) + [r]
    {
      results := results + [r];
    }

    method SettleRun(s: Status)
      modifies this`status
      ensures status == Some(s)
    {
      status := Some(s);
    }
  }

  lemma {:induction false} NotAttemptedPush(world: World, items: seq<Item>, item: Item, reason: Reason)
    ensures NotAttemptedResults(world, items + [item], reason) == NotAttemptedResults(world, items, reason) + NotAttemptedOne(world, item, reason)
  {
    if items == [] {
      assert (items + [item])[1..] == [];
    } else {
      assert (items + [item])[1..] == items[1..] + [item];
      NotAttemptedPush(world, items[1..], item, reason);
      assert NotAttemptedResults(world, items + [item], reason)
          == NotAttemptedOne(world, items[0], reason) + (NotAttemptedResults(world, items[1..], reason) + NotAttemptedOne(world, item, reason));
    }
  }

  method AppendNotAttempted(store: RunStore, world: World, items: seq<Item>, reason: Reason)
    modifies store`results
    ensures store.results == old(store.results) + NotAttemptedResults(world, items, reason)
  {
    for i := 0 to |items|
      invariant store.results == old(store.results) + NotAttemptedResults(world, items[..i], reason)
    {
      assert items[..i + 1] == items[..i] + [items[i]];
      NotAttemptedPush(world, items[..i], items[i], reason);
      var scenarioId := items[i].scenarioId;
      if scenarioId.Some? {
        store.AppendResult(ResultFor(world, scenarioId.value, NotAttempted(reason, [])));
      }
    }
    assert items[..|items|] == items;
  }

  lemma FatePush(world: World, order: seq<Item>, fates: seq<Fate>, fate: Fate)
    requires AreFates(world, order, fates) && |fates| < |order| && NextFate(world, order, fates) == Some(fate)
    ensures AreFates(world, order, fates + [fate])
  {
    var longer := fates + [fate];
    assert longer[..|fates|] == fates;
    forall k | 0 <= k < |longer| ensures FateAt(world, order, longer, k) {
      if k < |fates| {
        assert longer[..k] == fates[..k];
        assert FateAt(world, order, fates, k);
      }
    }
  }

  lemma PushedEffects(world: World, order: seq<Item>, fates: seq<Fate>, fate: Fate)
    requires |fates| < |order|
    ensures ReachedResults(world, order, fates + [fate]) == ReachedResults(world, order, fates) + ResultsOf(world, order, order[|fates|], fate)
    ensures BlockedIds(order, fates + [fate]) == BlockedIds(order, fates) + (if Blocks(fate) then {order[|fates|].id} else {})
    ensures EnvironmentAfter(world.environment, fates + [fate])
         == if fate.Withheld? then EnvironmentAfter(world.environment, fates) else fate.after
  {
    assert (fates + [fate])[..|fates|] == fates;
  }

  /** What a turn that does not throw does to the environment record and to the blocked ids. */
  predicate TurnLeaves(item: Item, fate: Fate, environment: Environment, blocked: set<string>, environment': Environment, blocked': set<string>) {
    && environment' == (if fate.Withheld? then environment else fate.after)
    && blocked' == blocked + (if Blocks(fate) then {item.id} else {})
  }

  /** The loop invariant: the turns taken so far. */
  ghost predicate Reached(world: World, order: seq<Item>, index: nat, environment: Environment, blocked: set<string>, fates: seq<Fate>) {
    && index == |fates| <= |order|
    && AreFates(world, order, fates)
    && world.RunsOnUntil(index)
    && environment == EnvironmentAfter(world.environment, fates)
    && blocked == BlockedIds(order, fates)
  }

  lemma TurnReaches(
    world: World, order: seq<Item>, index: nat, environment: Environment, blocked: set<string>, fates: seq<Fate>,
    fate: Fate, environment': Environment, blocked': set<string>, before: seq<RequestResult>)
    requires Reached(world, order, index, environment, blocked, fates) && index < |order| && !world.CancelledAt(index)
    requires NextFate(world, order, fates) == Some(fate)
    requires TurnLeaves(order[index], fate, environment, blocked, environment', blocked')
    ensures Reached(world, order, index + 1, environment', blocked', fates + [fate])
    ensures before + ReachedResults(world, order, fates) + ResultsOf(world, order, order[index], fate)
         == before + ReachedResults(world, order, fates + [fate])
  {
    FatePush(world, order, fates, fate);
    PushedEffects(world, order, fates, fate);
    Regroup(before, ReachedResults(world, order, fates), ResultsOf(world, order, order[index], fate));
  }

  /** One turn of the loop after the cancel checks; `threw` stands for an exception leaving the turn. */
  method TakeTurn(
    store: RunStore, world: World, order: seq<Item>, index: nat, environment: Environment, blocked: set<string>, ghost fates: seq<Fate>)
    returns (threw: bool, environment': Environment, blocked': set<string>)
    requires index == |fates| < |order|
    requires environment == EnvironmentAfter(world.environment, fates) && blocked == BlockedIds(order, fates)
    modifies store`results
    ensures threw <==> NextFate(world, order, fates).None?
    ensures threw ==> store.results == old(store.results) && environment' == environment && blocked' == blocked
    ensures !threw ==>
              var fate := NextFate(world, order, fates).value;
              && store.results == old(store.results) + ResultsOf(world, order, order[|fates|], fate)
              && TurnLeaves(order[|fates|], fate, environment, blocked, environment', blocked')
  {
    threw, environment', blocked' := false, environment, blocked;
    var item := order[index];
    var scenarioId := item.scenarioId;
    if scenarioId.None? {
      var attempt := world.run(index, item, environment);
      if attempt.Threw? {
        threw := true;
        return;
      }
      environment' := attempt.environment;
      return;
    }
    if scenarioId.value !in world.scenarioById {
      threw := true;
      return;
    }
    var unmetProducerIds := UnmetProducers(world, item.id, blocked);
    if |unmetProducerIds| > 0 {
      var unmetDependencies := Map(unmetProducerIds, UnmetOf(world, ScenarioIdByItemId(order)));
      store.AppendResult(ResultFor(world, scenarioId.value, NotAttempted(DependencyNotMet, unmetDependencies)));
      blocked' := blocked + {item.id};
      return;
    }
    var attempt := world.run(index, item, environment);
    if attempt.Threw? {
      threw := true;
      return;
    }
    environment' := attempt.environment;
    store.AppendResult(ResultFor(world, scenarioId.value, Attempted(attempt.outcome)));
    if IsBlocking(attempt.outcome) {
      blocked' := blocked + {item.id};
    }
  }

  /** Generating the collection can be refused, can throw, or gives the items to run. */
  datatype Generation = Refused | GenerationThrew | Generated(items: seq<Item>)

  /** How far the run got and why it went no further. */
  datatype Ending = RanOut | WasCancelled | Crashed

  ghost predicate EndsAs(world: World, order: seq<Item>, fates: seq<Fate>, ending: Ending) {
    && AreFates(world, order, fates)
    && world.RunsOnUntil(|fates|)
    && match ending
       case RanOut => |fates| == |order|
       case WasCancelled => |fates| < |order| && world.CancelledAt(|fates|)
       case Crashed => |fates| < |order| && !world.CancelledAt(|fates|) && NextFate(world, order, fates).None?
  }

  function Recorded(world: World, order: seq<Item>, fates: seq<Fate>, ending: Ending): seq<RequestResult>
    requires |fates| <= |order|
  {
    ReachedResults(world, order, fates)
    + NotAttemptedResults(world, order[|fates|..], if ending.WasCancelled? then Cancelled else RunEndedBeforeReached)
  }

  /** The turns of the loop, up to its end, a cancellation or an exception. */
  method TakeTurns(store: RunStore, world: World, order: seq<Item>) returns (attempted: nat, ending: Ending, ghost fates: seq<Fate>)
    modifies store`results
    ensures attempted == |fates| && EndsAs(world, order, fates, ending)
    ensures store.results == old(store.results) + ReachedResults(world, order, fates)
  {
    fates, attempted := [], 0;
    var environment: Environment, blocked: set<string> := world.environment, {};
    while attempted < |order|
      invariant Reached(world, order, attempted, environment, blocked, fates)
      invariant store.results == old(store.results) + ReachedResults(world, order, fates)
    {
      if world.cancelAtTurn(attempted) {
        return attempted, WasCancelled, fates;
      }
      if attempted > 0 && world.pauses {
        if world.cancelAfterPause(attempted) {
          return attempted, WasCancelled, fates;
        }
      }
      var threw, environment', blocked' := TakeTurn(store, world, order, attempted, environment, blocked, fates);
      if threw {
        return attempted, Crashed, fates;
      }
      ghost var fate := NextFate(world, order, fates).value;
      TurnReaches(world, order, attempted, environment, blocked, fates, fate, environment', blocked', old(store.results));
      fates := fates + [fate];
      attempted, environment, blocked := attempted + 1, environment', blocked';
    }
    return attempted, RanOut, fates;
  }

  /** Every item has its one result in order, whatever the run ended in. */
  ghost predicate Complete(world: World, order: seq<Item>, fates: seq<Fate>, ending: Ending, recorded: seq<RequestResult>) {
    && EndsAs(world, order, fates, ending)
    && recorded == Recorded(world, order, fates, ending)
    && Map(recorded, ResultScenario) == ScenarioIds(order)
  }

  method RunInOrder(store: RunStore, world: World, order: seq<Item>)
    returns (ending: Ending, ghost fates: seq<Fate>, ghost recorded: seq<RequestResult>)
    requires world.Valid()
    modifies store
    ensures store.status == Some(if ending.WasCancelled? then SettledCancelled else SettledCompleted)
    ensures Complete(world, order, fates, ending, recorded) && store.results == old(store.results) + recorded
  {
    var attempted;
    attempted, ending, fates := TakeTurns(store, world, order);
    recorded := Finished(world, order, fates, ending, old(store.results));
    if ending.WasCancelled? {
      AppendNotAttempted(store, world, order[attempted..], Cancelled);
      store.SettleRun(SettledCancelled);
    } else {
      if ending.Crashed? {
        AppendNotAttempted(store, world, order[attempted..], RunEndedBeforeReached);
      }
      store.SettleRun(SettledCompleted);
    }
  }

  /** What the store holds once the items that were not reached are appended. */
  lemma Finished(world: World, order: seq<Item>, fates: seq<Fate>, ending: Ending, before: seq<RequestResult>) returns (recorded: seq<RequestResult>)
    requires world.Valid() && EndsAs(world, order, fates, ending)
    ensures Complete(world, order, fates, ending, recorded)
    ensures var reached := before + ReachedResults(world, order, fates);
            && (ending.RanOut? ==> reached == before + recorded)
            && (ending.WasCancelled? ==> reached + NotAttemptedResults(world, order[|fates|..], Cancelled) == before + recorded)
            && (ending.Crashed? ==> reached + NotAttemptedResults(world, order[|fates|..], RunEndedBeforeReached) == before + recorded)
  {
    OneResultEach(world, order, fates, ending);
    recorded := Recorded(world, order, fates, ending);
    var reason := if ending.WasCancelled? then Cancelled else RunEndedBeforeReached;
    Regroup(before, ReachedResults(world, order, fates), NotAttemptedResults(world, order[|fates|..], reason));
  }

  lemma Regroup<T>(a: seq<T>, b: seq<T>, c: seq<T>)
    ensures (a + b) + c == a + (b + c)
  {
  }

  /**
   * On every path the run settles and, once the collection is generated, records exactly one result for every
   * scenario-backed item, in execution order.
   */
  method RunExecution(store: RunStore, world: World, generation: Generation)
    returns (ghost ending: Ending, ghost fates: seq<Fate>, ghost recorded: seq<RequestResult>)
    requires world.Valid()
    modifies store
    ensures store.results == old(store.results) + recorded
    ensures store.status == Some(if generation.Generated? && ending.WasCancelled? then SettledCancelled else SettledCompleted)
    ensures if generation.Generated? then Complete(world, Ordered(generation.items), fates, ending, recorded) else recorded == []
  {
    if !generation.Generated? {
      store.SettleRun(SettledCompleted);
      ending, fates, recorded := RanOut, [], [];
    } else {
      var order := ExecutionOrder.ExecutionOrder(generation.items);
      var how;
      how, fates, recorded := RunInOrder(store, world, order);
      ending := how;
    }
  }

  // ---- One result for every scenario ----

  lemma {:induction false} ScenarioIdsAppend(a: seq<Item>, b: seq<Item>)
    ensures ScenarioIds(a + b) == ScenarioIds(a) + ScenarioIds(b)
  {
    if a == [] {
      assert a + b == b;
    } else {
      assert (a + b)[1..] == a[1..] + b;
      ScenarioIdsAppend(a[1..], b);
    }
  }

  lemma FatesPrefix(world: World, order: seq<Item>, fates: seq<Fate>, n: nat)
    requires AreFates(world, order, fates) && n <= |fates|
    ensures AreFates(world, order, fates[..n])
  {
    forall k | 0 <= k < n ensures FateAt(world, order, fates[..n], k) {
      assert FateAt(world, order, fates, k) && fates[..n][..k] == fates[..k];
    }
  }

  lemma OneForThis(world: World, order: seq<Item>, item: Item, fate: Fate)
    requires world.Valid() && (item.scenarioId.None? <==> fate.Unreported?)
    ensures Map(ResultsOf(world, order, item, fate), ResultScenario) == ScenarioIds([item])
  {
    assert [item][1..] == [];
  }

  lemma {:induction false} ReachedOneEach(world: World, order: seq<Item>, fates: seq<Fate>)
    requires world.Valid() && AreFates(world, order, fates)
    ensures Map(ReachedResults(world, order, fates), ResultScenario) == ScenarioIds(order[..|fates|])
  {
    if fates != [] {
      var n := |fates| - 1;
      FatesPrefix(world, order, fates, n);
      ReachedOneEach(world, order, fates[..n]);
      assert FateAt(world, order, fates, n);
      OneForThis(world, order, order[n], fates[n]);
      assert order[..n + 1] == order[..n] + [order[n]];
      ScenarioIdsAppend(order[..n], [order[n]]);
      MapAppend(ReachedResults(world, order, fates[..n]), ResultsOf(world, order, order[n], fates[n]), ResultScenario);
    }
  }

  lemma {:induction false} NotAttemptedOneEach(world: World, items: seq<Item>, reason: Reason)
    requires world.Valid()
    ensures Map(NotAttemptedResults(world, items, reason), ResultScenario) == ScenarioIds(items)
  {
    if items != [] {
      NotAttemptedOneEach(world, items[1..], reason);
      MapAppend(NotAttemptedOne(world, items[0], reason), NotAttemptedResults(world, items[1..], reason), ResultScenario);
    }
  }

  lemma OneResultEach(world: World, order: seq<Item>, fates: seq<Fate>, ending: Ending)
    requires world.Valid() && EndsAs(world, order, fates, ending)
    ensures Complete(world, order, fates, ending, Recorded(world, order, fates, ending))
    ensures ending.RanOut? ==> Recorded(world, order, fates, ending) == ReachedResults(world, order, fates)
  {
    var n := |fates|;
    var reason := if ending.WasCancelled? then Cancelled else RunEndedBeforeReached;
    ReachedOneEach(world, order, fates);
    NotAttemptedOneEach(world, order[n..], reason);
    MapAppend(ReachedResults(world, order, fates), NotAttemptedResults(world, order[n..], reason), ResultScenario);
    assert order == order[..n] + order[n..];
    ScenarioIdsAppend(order[..n], order[n..]);
  }

  // ---- Who is withheld ----

  /**
   * A chain of data dependencies: every link leads from a scenario-backed item to an earlier item it depends on,
   * and the last item was sent and failed with any category but `assertion-failed`.
   */
  ghost predicate BlockingChain(world: World, order: seq<Item>, fates: seq<Fate>, chain: seq<nat>)
    requires |fates| <= |order|
  {
    && |chain| >= 1
    && (forall i :: 0 <= i < |chain| ==> chain[i] < |fates|)
    && (forall i, j :: 0 <= i && j == i + 1 && j < |chain| ==> Link(world, order, chain[i], chain[j]))
    && SentAndFailed(fates[chain[|chain| - 1]])
  }

  ghost predicate SentAndFailed(fate: Fate) {
    fate.Sent? && exists c :: fate.outcome == Failed(c) && c != "assertion-failed"
  }

  ghost predicate Link(world: World, order: seq<Item>, from: nat, to: nat) {
    && to < from < |order| && order[from].scenarioId.Some?
    && order[to].id in DependenciesOf(world, order[from].id)
  }

  lemma {:induction false} BlockedIdsExact(order: seq<Item>, fates: seq<Fate>, id: string)
    requires |fates| <= |order|
    ensures id in BlockedIds(order, fates) <==> exists k :: 0 <= k < |fates| && Blocks(fates[k]) && order[k].id == id
  {
    if fates != [] {
      var n := |fates| - 1;
      BlockedIdsExact(order, fates[..n], id);
      if k :| 0 <= k < |fates| && Blocks(fates[k]) && order[k].id == id {
        if k < n { assert fates[..n][k] == fates[k]; }
      }
      if k :| 0 <= k < n && Blocks(fates[..n][k]) && order[k].id == id {
        assert Blocks(fates[k]);
      }
    }
  }

  /** An item is withheld exactly when an earlier blocked item is among its dependencies. */
  lemma WithheldHere(world: World, order: seq<Item>, fates: seq<Fate>, k: nat)
    requires AreFates(world, order, fates) && k < |fates|
    ensures fates[k].Withheld? <==> exists j :: 0 <= j < k && Blocks(fates[j]) && Link(world, order, k, j)
  {
    assert FateAt(world, order, fates, k);
    var before := fates[..k];
    var id := order[k].id;
    var unmet := UnmetProducers(world, id, BlockedIds(order, before));
    if fates[k].Withheld? {
      assert unmet[0] in unmet;
      BlockedIdsExact(order, before, unmet[0]);
      var j :| 0 <= j < |before| && Blocks(before[j]) && order[j].id == unmet[0];
      assert Blocks(fates[j]) && Link(world, order, k, j);
    }
    if j :| 0 <= j < k && Blocks(fates[j]) && Link(world, order, k, j) {
      assert Blocks(before[j]);
      BlockedIdsExact(order, before, order[j].id);
      assert order[j].id in unmet;
    }
  }

  lemma ExtendChain(world: World, order: seq<Item>, fates: seq<Fate>, k: nat, chain: seq<nat>)
    requires |fates| <= |order| && k < |fates| && BlockingChain(world, order, fates, chain) && Link(world, order, k, chain[0])
    ensures BlockingChain(world, order, fates, [k] + chain)
  {
    var longer := [k] + chain;
    forall i, j | 0 <= i && j == i + 1 && j < |longer| ensures Link(world, order, longer[i], longer[j]) {
      if i > 0 { assert longer[i] == chain[i - 1] && longer[j] == chain[i]; }
    }
  }

  /** Everything that blocks does so because of a chain that starts there. */
  lemma {:induction false} ChainBehind(world: World, order: seq<Item>, fates: seq<Fate>, k: nat) returns (chain: seq<nat>)
    requires AreFates(world, order, fates) && k < |fates| && Blocks(fates[k])
    ensures BlockingChain(world, order, fates, chain) && chain[0] == k && (fates[k].Withheld? <==> |chain| > 1)
    decreases k
  {
    if fates[k].Withheld? {
      WithheldHere(world, order, fates, k);
      var j :| 0 <= j < k && Blocks(fates[j]) && Link(world, order, k, j);
      var rest := ChainBehind(world, order, fates, j);
      ExtendChain(world, order, fates, k, rest);
      chain := [k] + rest;
    } else {
      chain := [k];
    }
  }

  lemma {:induction false} ChainBlocks(world: World, order: seq<Item>, fates: seq<Fate>, chain: seq<nat>)
    requires AreFates(world, order, fates) && BlockingChain(world, order, fates, chain)
    ensures Blocks(fates[chain[0]]) && (|chain| > 1 ==> fates[chain[0]].Withheld?)
    decreases |chain|
  {
    if |chain| > 1 {
      var rest := chain[1..];
      assert Link(world, order, chain[0], chain[1]);
      forall i, j | 0 <= i && j == i + 1 && j < |rest| ensures Link(world, order, rest[i], rest[j]) {
        assert Link(world, order, chain[i + 1], chain[j + 1]);
      }
      ChainBlocks(world, order, fates, rest);
      WithheldHere(world, order, fates, chain[0]);
    }
  }

  /**
   * An item the run reached is withheld if and only if a chain of data dependencies, each to an earlier item, leads
   * from it to an item that was sent and failed with a category other than `assertion-failed`.
   */
  lemma WithheldIffChain(world: World, order: seq<Item>, fates: seq<Fate>, k: nat)
    requires AreFates(world, order, fates) && k < |fates|
    ensures fates[k].Withheld? <==> exists chain :: BlockingChain(world, order, fates, chain) && |chain| > 1 && chain[0] == k
  {
    if fates[k].Withheld? {
      var chain := ChainBehind(world, order, fates, k);
    }
    if chain :| BlockingChain(world, order, fates, chain) && |chain| > 1 && chain[0] == k {
      ChainBlocks(world, order, fates, chain);
    }
  }

  /** A sent item that failed with any category but `assertion-failed` withholds every later item that depends on it. */
  lemma FailureWithholds(world: World, order: seq<Item>, fates: seq<Fate>, producer: nat, dependent: nat, category: string)
    requires AreFates(world, order, fates) && dependent < |fates| && Link(world, order, dependent, producer)
    requires fates[producer].Sent? && fates[producer].outcome == Failed(category) && category != "assertion-failed"
    ensures fates[dependent].Withheld?
  {
    assert Blocks(fates[producer]);
    WithheldHere(world, order, fates, dependent);
  }

  /** An item whose dependencies, as far as they ran before it, were sent and passed or failed `assertion-failed` is not withheld. */
  lemma DeliveredIsNotWithheld(world: World, order: seq<Item>, fates: seq<Fate>, dependent: nat)
    requires AreFates(world, order, fates) && dependent < |fates|
    requires forall j :: 0 <= j < dependent && order[j].id in DependenciesOf(world, order[dependent].id) ==>
               fates[j].Unreported? || (fates[j].Sent? && (fates[j].outcome == Passed || fates[j].outcome == Failed("assertion-failed")))
    ensures !fates[dependent].Withheld?
  {
    WithheldHere(world, order, fates, dependent);
  }

  /** An item with this id came before position `k` and was withheld, or was sent and failed with another category. */
  ghost predicate UnmetBefore(order: seq<Item>, fates: seq<Fate>, k: nat, id: string)
    requires k <= |fates| <= |order|
  {
    exists j :: 0 <= j < k && order[j].id == id && (fates[j].Withheld? || SentAndFailed(fates[j]))
  }

  /** A withheld item names exactly its unmet producers, in the order of its dependencies. */
  lemma WithheldNamesProducers(world: World, order: seq<Item>, fates: seq<Fate>, k: nat)
    requires AreFates(world, order, fates) && k < |fates| && fates[k].Withheld?
    ensures fates[k].unmet == Filter(DependenciesOf(world, order[k].id), id => UnmetBefore(order, fates, k, id))
  {
    assert FateAt(world, order, fates, k);
    var before, dependencies := fates[..k], DependenciesOf(world, order[k].id);
    forall id | id in dependencies ensures IsIn(BlockedIds(order, before))(id) <==> UnmetBefore(order, fates, k, id) {
      BlockedIdsExact(order, before, id);
      if j :| 0 <= j < |before| && Blocks(before[j]) && order[j].id == id { BlockingMeans(fates[j]); }
      if j :| 0 <= j < k && order[j].id == id && (fates[j].Withheld? || SentAndFailed(fates[j])) { BlockingMeans(before[j]); }
    }
    FilterSame(dependencies, IsIn(BlockedIds(order, before)), id => UnmetBefore(order, fates, k, id));
  }

  lemma BlockingMeans(fate: Fate)
    ensures Blocks(fate) <==> fate.Withheld? || SentAndFailed(fate)
  {
    if fate.Sent? && fate.outcome.Failed? { assert fate.outcome == Failed(fate.outcome.failureCategory); }
  }

  // ---- What each item is sent with and what is recorded of it ----

  /** The environment a turn sees: what the last item before it that ran left behind. */
  ghost predicate Sees(world: World, fates: seq<Fate>, k: nat, environment: Environment)
    requires k <= |fates|
  {
    || (environment == world.environment && forall j :: 0 <= j < k ==> fates[j].Withheld?)
    || exists j :: 0 <= j < k && !fates[j].Withheld? && fates[j].after == environment && forall i :: j < i < k ==> fates[i].Withheld?
  }

  lemma {:induction false} EnvironmentIsSeen(world: World, fates: seq<Fate>, k: nat)
    requires k <= |fates|
    ensures Sees(world, fates, k, EnvironmentAfter(world.environment, fates[..k]))
  {
    if k > 0 {
      assert fates[..k][..k - 1] == fates[..k - 1];
      if fates[k - 1].Withheld? { EnvironmentIsSeen(world, fates, k - 1); }
    }
  }

  /** Every item that runs runs once, in its turn, on the variables the last item that ran left behind, and ends as the runner answers. */
  lemma RunsInItsTurn(world: World, order: seq<Item>, fates: seq<Fate>, k: nat)
    requires AreFates(world, order, fates) && k < |fates| && !fates[k].Withheld?
    ensures exists environment :: Sees(world, fates, k, environment)
                                  && world.run(k, order[k], environment) == Ran(fates[k].outcome, fates[k].after)
    ensures fates[k].Sent? <==> order[k].scenarioId.Some?
  {
    assert FateAt(world, order, fates, k);
    EnvironmentIsSeen(world, fates, k);
  }

  /** The last item of the run with this id that stands for a scenario. */
  ghost predicate LastWith(order: seq<Item>, id: string, i: nat) {
    && i < |order| && order[i].id == id && order[i].scenarioId.Some?
    && forall j :: i < j < |order| && order[j].id == id ==> order[j].scenarioId.None?
  }

  lemma {:induction false} ScenarioOfItem(order: seq<Item>, id: string)
    ensures forall i: nat :: LastWith(order, id, i) ==>
              id in ScenarioIdByItemId(order) && ScenarioIdByItemId(order)[id] == order[i].scenarioId.value
    ensures (forall i :: 0 <= i < |order| && order[i].id == id ==> order[i].scenarioId.None?) ==> id !in ScenarioIdByItemId(order)
  {
    if order != [] {
      var n := |order| - 1;
      ScenarioOfItem(order[..n], id);
      forall i: nat | LastWith(order, id, i)
        ensures id in ScenarioIdByItemId(order) && ScenarioIdByItemId(order)[id] == order[i].scenarioId.value
      {
        if i < n { assert LastWith(order[..n], id, i); }
      }
    }
  }

  /** The result is about this scenario, with the path and method of its operation when the scenario is known. */
  predicate IsAbout(world: World, r: RequestResult, scenarioId: string) {
    if scenarioId in world.scenarioById then
      var s := world.scenarioById[scenarioId];
      r.scenarioId == s.id && r.operationPath == s.operationPath && r.operationMethod == s.operationMethod
    else r.scenarioId == scenarioId && r.operationPath == "" && r.operationMethod == ""
  }

  /** An unmet producer is named by its scenario, or by the scenario's id alone when the scenario is not known. */
  ghost predicate NamesProducer(world: World, order: seq<Item>, u: Unmet, id: string) {
    forall i: nat :: LastWith(order, id, i) ==>
      if order[i].scenarioId.value in world.scenarioById then
        var s := world.scenarioById[order[i].scenarioId.value];
        u.scenarioId == s.id && u.operationPath == s.operationPath && u.operationMethod == s.operationMethod
      else u.scenarioId == order[i].scenarioId.value && u.operationPath == "" && u.operationMethod == ""
  }

  ghost predicate NamesUnmet(world: World, order: seq<Item>, named: seq<Unmet>, unmet: seq<string>) {
    |named| == |unmet| && forall i :: 0 <= i < |unmet| ==> NamesProducer(world, order, named[i], unmet[i])
  }

  /** What must be recorded of a scenario-backed item. */
  ghost predicate Tells(world: World, order: seq<Item>, fates: seq<Fate>, ending: Ending, k: nat, r: RequestResult)
    requires |fates| <= |order| && k < |order|
  {
    && order[k].scenarioId.Some? && IsAbout(world, r, order[k].scenarioId.value)
    && if k >= |fates| then r.verdict == NotAttempted(if ending.WasCancelled? then Cancelled else RunEndedBeforeReached, [])
       else if fates[k].Withheld? then
         && r.verdict.NotAttempted? && r.verdict.reason == DependencyNotMet
         && NamesUnmet(world, order, r.verdict.unmetDependencies, fates[k].unmet)
       else r.verdict == Attempted(fates[k].outcome)
  }

  lemma UnmetIsNamed(world: World, order: seq<Item>, unmet: seq<string>)
    ensures NamesUnmet(world, order, Map(unmet, UnmetOf(world, ScenarioIdByItemId(order))), unmet)
  {
    var named := Map(unmet, UnmetOf(world, ScenarioIdByItemId(order)));
    forall i | 0 <= i < |unmet| ensures NamesProducer(world, order, named[i], unmet[i]) { ScenarioOfItem(order, unmet[i]); }
  }

  lemma {:induction false} ReachedPrefix(world: World, order: seq<Item>, fates: seq<Fate>, n: nat)
    requires |fates| <= |order| && n <= |fates|
    ensures ReachedResults(world, order, fates[..n]) <= ReachedResults(world, order, fates)
  {
    if n < |fates| {
      ReachedPrefix(world, order, fates[..|fates| - 1], n);
      assert fates[..|fates| - 1][..n] == fates[..n];
    } else {
      assert fates[..n] == fates;
    }
  }

  lemma {:induction false} NotAttemptedAt(world: World, items: seq<Item>, reason: Reason, i: nat)
    requires i < |items| && items[i].scenarioId.Some?
    ensures var p := |ScenarioIds(items[..i])|;
            p < |NotAttemptedResults(world, items, reason)|
            && NotAttemptedResults(world, items, reason)[p] == ResultFor(world, items[i].scenarioId.value, NotAttempted(reason, []))
  {
    if i > 0 {
      NotAttemptedAt(world, items[1..], reason, i - 1);
      assert items[1..][..i - 1] == items[..i][1..] && items[..i][0] == items[0];
    }
  }

  /** Every scenario-backed item has its result at its place, and the result tells what became of the item. */
  lemma RecordedTells(world: World, order: seq<Item>, fates: seq<Fate>, ending: Ending, k: nat)
    requires world.Valid() && EndsAs(world, order, fates, ending) && k < |order| && order[k].scenarioId.Some?
    ensures var p := |ScenarioIds(order[..k])|;
            p < |Recorded(world, order, fates, ending)| && Tells(world, order, fates, ending, k, Recorded(world, order, fates, ending)[p])
  {
    if k < |fates| {
      ReachedAt(world, order, fates, k);
    } else {
      ReachedCount(world, order, fates);
      RestAt(world, order, ReachedResults(world, order, fates), |fates|, if ending.WasCancelled? then Cancelled else RunEndedBeforeReached, k);
    }
  }

  lemma ReachedCount(world: World, order: seq<Item>, fates: seq<Fate>)
    requires world.Valid() && AreFates(world, order, fates)
    ensures |ReachedResults(world, order, fates)| == |ScenarioIds(order[..|fates|])|
  {
    ReachedOneEach(world, order, fates);
    assert |Map(ReachedResults(world, order, fates), ResultScenario)| == |ReachedResults(world, order, fates)|;
  }

  /** Behind the results of the first `n` items the others have theirs, each at its place. */
  lemma RestAt(world: World, order: seq<Item>, reached: seq<RequestResult>, n: nat, reason: Reason, k: nat)
    requires n <= k < |order| && order[k].scenarioId.Some? && |reached| == |ScenarioIds(order[..n])|
    ensures var results, p := reached + NotAttemptedResults(world, order[n..], reason), |ScenarioIds(order[..k])|;
            p < |results| && results[p] == ResultFor(world, order[k].scenarioId.value, NotAttempted(reason, []))
  {
    var rest := order[n..];
    assert rest[k - n] == order[k] && order[..k] == order[..n] + rest[..k - n];
    NotAttemptedAt(world, rest, reason, k - n);
    ScenarioIdsAppend(order[..n], rest[..k - n]);
  }

  lemma ReachedAt(world: World, order: seq<Item>, fates: seq<Fate>, k: nat)
    requires world.Valid() && AreFates(world, order, fates) && k < |fates| && order[k].scenarioId.Some?
    ensures var p := |ScenarioIds(order[..k])|;
            p < |ReachedResults(world, order, fates)| && forall ending :: Tells(world, order, fates, ending, k, ReachedResults(world, order, fates)[p])
  {
    FatesPrefix(world, order, fates, k);
    ReachedCount(world, order, fates[..k]);
    assert FateAt(world, order, fates, k);
    OwnResultAt(world, order, fates, k);
    if fates[k].Withheld? { UnmetIsNamed(world, order, fates[k].unmet); }
  }

  lemma OwnResultAt(world: World, order: seq<Item>, fates: seq<Fate>, k: nat)
    requires k < |fates| <= |order| && order[k].scenarioId.Some? && !fates[k].Unreported?
    ensures var before := ReachedResults(world, order, fates[..k]);
            |before| < |ReachedResults(world, order, fates)| && ReachedResults(world, order, fates)[|before|] == ResultsOf(world, order, order[k], fates[k])[0]
  {
    ReachedPrefix(world, order, fates, k + 1);
    assert fates[..k + 1][..k] == fates[..k];
    var before, own := ReachedResults(world, order, fates[..k]), ResultsOf(world, order, order[k], fates[k]);
    assert ReachedResults(world, order, fates[..k + 1]) == before + own;
    assert (before + own)[|before|] == own[0];
  }
}
