/** The order in which the items of a generated collection are executed (backend/src/execution/runExecution.ts). */
module ExecutionOrder {
  import opened Sequences
  import opened Ordering

  /** A request item with the parts of its provenance the executor reads. */
  datatype Item = Item(id: string, workflowId: Option<string>, stepPosition: Option<int>, scenarioId: Option<string>)

  predicate InWorkflow(item: Item) {
    item.workflowId.Some?
  }

  predicate Standalone(item: Item) {
    item.workflowId.None?
  }

  function WorkflowOf(item: Item): string {
    if item.workflowId.Some? then item.workflowId.value else ""
  }

  function StepOf(item: Item): int {
    if item.stepPosition.Some? then item.stepPosition.value else 0
  }

  predicate ByStep(a: Item, b: Item) {
    StepOf(a) <= StepOf(b)
  }

  function StepsOf(workflowItems: seq<Item>): string -> seq<Item> {
    (id: string) => SortBy(OfKey(workflowItems, WorkflowOf, id), ByStep)
  }

  function WorkflowIds(workflowItems: seq<Item>): seq<string> {
    SortBy(FirstKeys(workflowItems, WorkflowOf), CodeUnitLe)
  }

  function WorkflowRun(workflowItems: seq<Item>): seq<Item> {
    Flatten(Map(WorkflowIds(workflowItems), StepsOf(workflowItems)))
  }

  function Ordered(items: seq<Item>): seq<Item> {
    WorkflowRun(Filter(items, InWorkflow)) + Filter(items, Standalone)
  }

  lemma FlattenMapPush<K, T>(keys: seq<K>, i: nat, f: K -> seq<T>)
    requires i < |keys|
    ensures Flatten(Map(keys[..i + 1], f)) == Flatten(Map(keys[..i], f)) + f(keys[i])
  {
    assert keys[..i + 1] == keys[..i] + [keys[i]];
    MapAppend(keys[..i], [keys[i]], f);
    assert Map([keys[i]], f) == [f(keys[i])];
    FlattenAppend(Map(keys[..i], f), [f(keys[i])]);
    assert [f(keys[i])][1..] == [];
  }

  /** `orderedWorkflowIds.flatMap((id) => [...byWorkflowId.get(id)].sort(...))` */
  method InOrderOfIds(workflowItems: seq<Item>, ids: seq<string>, byWorkflowId: map<string, seq<Item>>) returns (ordered: seq<Item>)
    requires forall id :: id in ids ==> id in byWorkflowId && byWorkflowId[id] == OfKey(workflowItems, WorkflowOf, id)
    ensures ordered == Flatten(Map(ids, StepsOf(workflowItems)))
  {
    ordered := [];
    for i := 0 to |ids|
      invariant ordered == Flatten(Map(ids[..i], StepsOf(workflowItems)))
    {
      FlattenMapPush(ids, i, StepsOf(workflowItems));
      assert ids[i] in ids;
      ordered := ordered + SortBy(byWorkflowId[ids[i]], ByStep);
    }
    assert ids[..|ids|] == ids;
  }

  method ExecutionOrder(items: seq<Item>) returns (ordered: seq<Item>)
    ensures ordered == Ordered(items)
  {
    var workflowItems := Filter(items, InWorkflow);
    var standaloneItems := Filter(items, Standalone);
    var keys, byWorkflowId := GroupBy(workflowItems, WorkflowOf);
    var orderedWorkflowIds := SortBy(keys, CodeUnitLe);
    forall id | id in orderedWorkflowIds ensures id in byWorkflowId && byWorkflowId[id] == OfKey(workflowItems, WorkflowOf, id) {
      SortByMembers(keys, CodeUnitLe);
      assert GroupAt(workflowItems, WorkflowOf, byWorkflowId, id);
    }
    var orderedWorkflowItems := InOrderOfIds(workflowItems, orderedWorkflowIds, byWorkflowId);
    ordered := orderedWorkflowItems + standaloneItems;
  }

  lemma {:induction false} FlattenSame<T, K>(keys: seq<K>, f: K -> seq<T>, g: K -> seq<T>)
    requires forall k :: k in keys ==> multiset(f(k)) == multiset(g(k))
    ensures multiset(Flatten(Map(keys, f))) == multiset(Flatten(Map(keys, g)))
  {
    if keys != [] {
      assert keys[0] in keys;
      FlattenSame(keys[1..], f, g);
    }
  }

  lemma KeysInOrder(workflowItems: seq<Item>)
    ensures var ids := WorkflowIds(workflowItems);
            Distinct(ids) && Sorted(ids, CodeUnitLe) && forall item :: item in workflowItems ==> WorkflowOf(item) in ids
  {
    var keys := FirstKeys(workflowItems, WorkflowOf);
    FirstKeysComplete(workflowItems, WorkflowOf);
    CodeUnitOrder();
    SortBySorted(keys, CodeUnitLe);
    SortByPermutes(keys, CodeUnitLe);
    SortByMembers(keys, CodeUnitLe);
    DistinctPermutation(keys, SortBy(keys, CodeUnitLe));
  }

  lemma WorkflowRunPermutes(workflowItems: seq<Item>)
    ensures multiset(WorkflowRun(workflowItems)) == multiset(workflowItems)
    ensures |WorkflowRun(workflowItems)| == |workflowItems|
  {
    var ids := WorkflowIds(workflowItems);
    KeysInOrder(workflowItems);
    GroupsPartition(workflowItems, WorkflowOf, ids);
    var groups := (id: string) => OfKey(workflowItems, WorkflowOf, id);
    forall id | id in ids ensures multiset(StepsOf(workflowItems)(id)) == multiset(groups(id)) {
      SortByPermutes(groups(id), ByStep);
    }
    FlattenSame(ids, StepsOf(workflowItems), groups);
    assert |multiset(WorkflowRun(workflowItems))| == |multiset(workflowItems)|;
  }

  /** Nothing is lost, nothing is run twice. */
  lemma OrderPermutes(items: seq<Item>)
    ensures multiset(Ordered(items)) == multiset(items)
  {
    WorkflowRunPermutes(Filter(items, InWorkflow));
    FilterSplits(items, InWorkflow, Standalone);
  }

  /** One item may run before another: by workflow id, and within a workflow by step position, which is 0 where none is given. */
  ghost predicate InTurn(a: Item, b: Item) {
    if a.workflowId == b.workflowId then
      (match a.stepPosition case None => 0 case Some(p) => p) <= (match b.stepPosition case None => 0 case Some(p) => p)
    else
      a.workflowId.Some? && b.workflowId.Some? ==> CodeUnitLe(a.workflowId.value, b.workflowId.value)
  }

  ghost predicate AllInTurn(run: seq<Item>) {
    forall i, j :: 0 <= i < j < |run| ==> InTurn(run[i], run[j])
  }

  lemma StepsInOrder(workflowItems: seq<Item>, id: string)
    ensures AllInTurn(StepsOf(workflowItems)(id))
    ensures forall item :: item in StepsOf(workflowItems)(id) ==> WorkflowOf(item) == id
  {
    var group := OfKey(workflowItems, WorkflowOf, id);
    SortBySorted(group, ByStep);
    SortByMembers(group, ByStep);
    var steps := SortBy(group, ByStep);
    forall i, j | 0 <= i < j < |steps| ensures InTurn(steps[i], steps[j]) {
      assert steps[i] in steps && steps[j] in steps;
      assert ByStep(steps[i], steps[j]);
    }
  }

  lemma {:induction false} WorkflowsInOrder(workflowItems: seq<Item>, ids: seq<string>)
    requires Distinct(ids) && Sorted(ids, CodeUnitLe)
    ensures AllInTurn(Flatten(Map(ids, StepsOf(workflowItems))))
    ensures forall item :: item in Flatten(Map(ids, StepsOf(workflowItems))) ==> WorkflowOf(item) in ids
  {
    if ids != [] {
      StepsInOrder(workflowItems, ids[0]);
      WorkflowsInOrder(workflowItems, ids[1..]);
      var steps, rest := StepsOf(workflowItems)(ids[0]), Flatten(Map(ids[1..], StepsOf(workflowItems)));
      assert Flatten(Map(ids, StepsOf(workflowItems))) == steps + rest;
      forall a, b | a in steps && b in rest ensures InTurn(a, b) {
        assert WorkflowOf(b) in ids[1..];
        LaterWorkflow(a, b);
      }
    }
  }

  lemma LaterWorkflow(a: Item, b: Item)
    requires WorkflowOf(a) != WorkflowOf(b) && CodeUnitLe(WorkflowOf(a), WorkflowOf(b))
    ensures InTurn(a, b)
  {
  }

  /** Workflows run one after another in id order, each by step position; everything else follows in its own order. */
  lemma RunsInTurn(items: seq<Item>)
    ensures var n := |Filter(items, InWorkflow)|;
            && n <= |Ordered(items)| && AllInTurn(Ordered(items)[..n])
            && Ordered(items)[n..] == Filter(items, (item: Item) => item.workflowId.None?)
            && forall item :: item in Ordered(items)[..n] <==> item in items && item.workflowId.Some?
  {
    FilterSame(items, Standalone, (item: Item) => item.workflowId.None?);
    var workflowItems := Filter(items, InWorkflow);
    var run := WorkflowRun(workflowItems);
    KeysInOrder(workflowItems);
    WorkflowsInOrder(workflowItems, WorkflowIds(workflowItems));
    WorkflowRunPermutes(workflowItems);
    assert Ordered(items)[..|run|] == run;
    forall item ensures item in run <==> item in workflowItems {
      assert item in multiset(run) <==> item in multiset(workflowItems);
    }
  }

  // ---- Items of one step keep their order ----

  predicate AtStep(item: Item, id: string, position: int) {
    item.workflowId == Some(id) && (match item.stepPosition case None => 0 case Some(p) => p) == position
  }

  lemma {:induction false} OnlyInItsWorkflow(workflowItems: seq<Item>, ids: seq<string>, id: string, position: int)
    requires Distinct(ids) && forall item :: item in workflowItems ==> item.workflowId.Some?
    ensures Filter(Flatten(Map(ids, StepsOf(workflowItems))), item => AtStep(item, id, position))
         == if id in ids then Filter(workflowItems, item => AtStep(item, id, position)) else []
  {
    if ids != [] {
      var steps, rest := StepsOf(workflowItems)(ids[0]), Flatten(Map(ids[1..], StepsOf(workflowItems)));
      StepsInOrder(workflowItems, ids[0]);
      OnlyInItsWorkflow(workflowItems, ids[1..], id, position);
      assert Flatten(Map(ids, StepsOf(workflowItems))) == steps + rest;
      FilterAppend(steps, rest, item => AtStep(item, id, position));
      if ids[0] == id {
        SortByIsStable(OfKey(workflowItems, WorkflowOf, id), ByStep, item => AtStep(item, id, position));
        FilterTwice(workflowItems, HasKey(WorkflowOf, id), item => AtStep(item, id, position), item => AtStep(item, id, position));
      } else {
        FilterNone(steps, item => AtStep(item, id, position));
      }
    }
  }

  /** Items with the same workflow and step position run in the order they are listed in. */
  lemma SameStepKeepsOrder(items: seq<Item>, id: string, position: int)
    ensures Filter(Ordered(items), item => AtStep(item, id, position)) == Filter(items, item => AtStep(item, id, position))
  {
    var workflowItems := Filter(items, InWorkflow);
    KeysInOrder(workflowItems);
    OnlyInItsWorkflow(workflowItems, WorkflowIds(workflowItems), id, position);
    FilterAppend(WorkflowRun(workflowItems), Filter(items, Standalone), item => AtStep(item, id, position));
    FilterNone(Filter(items, Standalone), item => AtStep(item, id, position));
    FilterTwice(items, InWorkflow, item => AtStep(item, id, position), item => AtStep(item, id, position));
    if id !in WorkflowIds(workflowItems) { FilterNone(workflowItems, item => AtStep(item, id, position)); }
  }
}
