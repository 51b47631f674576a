/** One workflow from one path (backend/src/dependencies/assembleWorkflows.ts:39-80). */
module WorkflowBuilding {
  import opened Sequences
  import opened Relationships

  datatype WorkflowStep = WorkflowStep(
    position: int, operationPath: string, operationMethod: string,
    producesVariableNames: seq<string>, consumesVariableNames: seq<string>)

  datatype WorkflowVariable = WorkflowVariable(
    name: string, producerStepIndex: int, producerField: string,
    consumerStepIndex: int, consumerLocation: string, consumerField: string, relationshipId: string)

  datatype Workflow = Workflow(
    id: string, steps: seq<WorkflowStep>, variables: seq<WorkflowVariable>, relationshipIds: seq<string>)

  // ---- Variable names ----

  /** `field.split(".").pop()` */
  function LastSegment(field: string): string {
    if field == [] || field[|field| - 1] == '.' then [] else LastSegment(field[..|field| - 1]) + [field[|field| - 1]]
  }

  /** What follows the last dot, or the whole field when it has none. */
  lemma {:induction false} LastSegmentIsLast(field: string)
    ensures '.' !in LastSegment(field) && |LastSegment(field)| <= |field|
    ensures var n := |field| - |LastSegment(field)|;
            field[n..] == LastSegment(field) && (n == 0 || field[n - 1] == '.')
  {
    if field != [] && field[|field| - 1] != '.' {
      LastSegmentIsLast(field[..|field| - 1]);
      assert field == field[..|field| - 1] + [field[|field| - 1]];
    }
  }

  function Decimal(n: nat): string {
    if n < 10 then ["0123456789"[n]] else Decimal(n / 10) + ["0123456789"[n % 10]]
  }

  /** The k-th name tried for a base: the base itself, then base2, base3, ... */
  function NameTried(base: string, k: nat): string {
    if k <= 1 then base else base + Decimal(k)
  }

  lemma {:induction false} DecimalInjective(a: nat, b: nat)
    requires Decimal(a) == Decimal(b)
    ensures a == b
  {
    var x, y := Decimal(a), Decimal(b);
    assert "0123456789"[a % 10] == x[|x| - 1] == y[|y| - 1] == "0123456789"[b % 10];
    if a >= 10 {
      assert x[..|x| - 1] == Decimal(a / 10) && y[..|y| - 1] == Decimal(b / 10);
      DecimalInjective(a / 10, b / 10);
    }
  }

  /** The number a sequence of decimal digits stands for. */
  ghost function Value(digits: string): int {
    if digits == "" then 0 else 10 * Value(digits[..|digits| - 1]) + (digits[|digits| - 1] as int - '0' as int)
  }

  /** `Decimal` writes a number in digits, without a leading zero. */
  lemma {:induction false} DecimalIsDecimal(n: nat)
    ensures Value(Decimal(n)) == n && (forall i :: 0 <= i < |Decimal(n)| ==> '0' <= Decimal(n)[i] <= '9')
    ensures |Decimal(n)| > 1 ==> Decimal(n)[0] != '0'
  {
    var d := Decimal(n);
    if n < 10 {
      assert d[..0] == "";
    } else {
      DecimalIsDecimal(n / 10);
      assert d[..|d| - 1] == Decimal(n / 10);
      if |Decimal(n / 10)| == 1 { assert d[0] == Decimal(n / 10)[0]; }
    }
  }

  lemma NamesTriedDiffer(base: string, j: nat, k: nat)
    requires 1 <= j < k
    ensures NameTried(base, j) != NameTried(base, k)
  {
    if j > 1 && NameTried(base, j) == NameTried(base, k) {
      assert NameTried(base, j)[|base|..] == Decimal(j) && NameTried(base, k)[|base|..] == Decimal(k);
      DecimalInjective(j, k);
    }
  }

  /** Finitely many names are used, so only that many tries can fail. */
  lemma {:induction false} TriesAreBounded(base: string, used: set<string>, n: nat)
    requires forall k :: 1 <= k <= n ==> NameTried(base, k) in used
    ensures n <= |used|
  {
    if n > 0 {
      var rest := used - {NameTried(base, n)};
      forall k | 1 <= k <= n - 1 ensures NameTried(base, k) in rest {
        NamesTriedDiffer(base, k, n);
      }
      TriesAreBounded(base, rest, n - 1);
    }
  }

  /** The first name in the order of tries that is not used yet. */
  ghost predicate FirstFree(base: string, used: set<string>, name: string) {
    exists k: nat {:trigger NameTried(base, k)} :: k >= 1 && name == NameTried(base, k) && name !in used
      && forall j: nat {:trigger NameTried(base, j)} :: 1 <= j < k ==> NameTried(base, j) in used
  }

  /** The `while (usedNames.has(name))` loop; it stops for every base and every set of used names. */
  method FreeName(base: string, used: set<string>) returns (name: string)
    ensures FirstFree(base, used, name)
  {
    name := base;
    var suffix: nat := 2;
    assert name == NameTried(base, 1);
    while name in used
      invariant suffix >= 2 && name == NameTried(base, suffix - 1)
      invariant forall j: nat {:trigger NameTried(base, j)} :: 1 <= j < suffix - 1 ==> NameTried(base, j) in used
      decreases |used| + 2 - suffix
    {
      TriesAreBounded(base, used, suffix - 1);
      name := base + Decimal(suffix);
      assert name == NameTried(base, suffix);
      suffix := suffix + 1;
    }
  }

  // ---- The workflow ----

  ghost function NamesBefore(variables: seq<WorkflowVariable>, i: nat): set<string>
    requires i <= |variables|
  {
    set v | v in variables[..i] :: v.name
  }

  ghost predicate IsVariable(path: seq<Relationship>, variables: seq<WorkflowVariable>, i: nat)
    requires i < |path| && i < |variables|
  {
    var r, v := path[i], variables[i];
    && FirstFree(LastSegment(r.consumer.field), NamesBefore(variables, i), v.name)
    && v.producerStepIndex == i && v.consumerStepIndex == i + 1
    && v.producerField == r.producer.field && v.consumerField == r.consumer.field
    && v.consumerLocation == (if r.consumer.location.Some? then r.consumer.location.value else "body")
    && v.relationshipId == r.id
  }

  function NodeAt(path: seq<Relationship>, i: nat): OperationNode
    requires path != [] && i <= |path|
  {
    if i == 0 then ProducerNode(path[0]) else ConsumerNode(path[i - 1])
  }

  /** Step `i` when the first `done` hand-offs have been recorded. */
  ghost predicate IsStep(path: seq<Relationship>, variables: seq<WorkflowVariable>, done: nat, s: WorkflowStep, i: nat)
    requires path != [] && i <= |path| && done <= |variables|
  {
    && s.position == i
    && s.operationPath == NodeAt(path, i).path && s.operationMethod == NodeAt(path, i).verb
    && s.producesVariableNames == (if i < done then [variables[i].name] else [])
    && s.consumesVariableNames == (if 1 <= i <= done then [variables[i - 1].name] else [])
  }

  /** `w` is the workflow of `path`: its operations in order, one variable per hand-off from step i to step i+1. */
  ghost predicate IsWorkflowOf(path: seq<Relationship>, idOf: seq<string> -> string, w: Workflow)
    requires path != []
  {
    && |w.steps| == |path| + 1 && |w.variables| == |path|
    && (forall i: nat :: i <= |path| ==> IsStep(path, w.variables, |path|, w.steps[i], i))
    && (forall i: nat :: i < |path| ==> IsVariable(path, w.variables, i))
    && w.relationshipIds == Map(path, (r: Relationship) => r.id)
    && w.id == idOf(w.relationshipIds)
  }

  /** What holds after the first `index` hand-offs. */
  ghost predicate BuiltUpTo(path: seq<Relationship>, steps: seq<WorkflowStep>, variables: seq<WorkflowVariable>, index: nat) {
    && path != [] && index <= |path| && |steps| == |path| + 1 && |variables| == index
    && (forall i: nat :: i < index ==> IsVariable(path, variables, i))
    && (forall i: nat :: i <= |path| ==> IsStep(path, variables, index, steps[i], i))
  }

  function VariableOf(r: Relationship, index: nat, name: string): WorkflowVariable {
    WorkflowVariable(name, index, r.producer.field, index + 1,
      if r.consumer.location.Some? then r.consumer.location.value else "body", r.consumer.field, r.id)
  }

  /** The name is pushed onto what the producing step makes and onto what the next step takes. */
  function HandOff(steps: seq<WorkflowStep>, index: nat, name: string): seq<WorkflowStep>
    requires index + 1 < |steps|
  {
    var produced := steps[index := steps[index].(producesVariableNames := steps[index].producesVariableNames + [name])];
    produced[index + 1 := produced[index + 1].(consumesVariableNames := produced[index + 1].consumesVariableNames + [name])]
  }

  lemma HandOffVariables(path: seq<Relationship>, variables: seq<WorkflowVariable>, index: nat, name: string)
    requires index < |path| && |variables| == index
    requires forall i: nat :: i < index ==> IsVariable(path, variables, i)
    requires FirstFree(LastSegment(path[index].consumer.field), NamesBefore(variables, index), name)
    ensures forall i: nat :: i <= index ==> IsVariable(path, variables + [VariableOf(path[index], index, name)], i)
  {
    var variables' := variables + [VariableOf(path[index], index, name)];
    forall i: nat | i <= index ensures IsVariable(path, variables', i) {
      assert variables'[..i] == variables[..i];
      assert i < index ==> IsVariable(path, variables, i);
    }
  }

  lemma HandOffKeeps(path: seq<Relationship>, steps: seq<WorkflowStep>, variables: seq<WorkflowVariable>, index: nat, name: string)
    requires BuiltUpTo(path, steps, variables, index) && index < |path|
    requires FirstFree(LastSegment(path[index].consumer.field), NamesBefore(variables, index), name)
    ensures BuiltUpTo(path, HandOff(steps, index, name), variables + [VariableOf(path[index], index, name)], index + 1)
    ensures NamesBefore(variables + [VariableOf(path[index], index, name)], index + 1) == NamesBefore(variables, index) + {name}
  {
    var v := VariableOf(path[index], index, name);
    HandOffVariables(path, variables, index, name);
    var steps', variables' := HandOff(steps, index, name), variables + [v];
    forall i: nat | i <= |path| ensures IsStep(path, variables', index + 1, steps'[i], i) {
      assert IsStep(path, variables, index, steps[i], i);
    }
    assert variables'[..index + 1] == variables[..index] + [v];
  }

  method BuildWorkflowFromPath(path: seq<Relationship>, idOf: seq<string> -> string) returns (w: Workflow)
    requires path != []
    ensures IsWorkflowOf(path, idOf, w)
  {
    var steps := seq(|path| + 1, (i: int) requires 0 <= i <= |path| =>
      WorkflowStep(i, NodeAt(path, i).path, NodeAt(path, i).verb, [], []));
    var usedNames: set<string>, variables: seq<WorkflowVariable> := {}, [];
    for index := 0 to |path|
      invariant BuiltUpTo(path, steps, variables, index) && usedNames == NamesBefore(variables, index)
    {
      var name := FreeName(LastSegment(path[index].consumer.field), usedNames);
      HandOffKeeps(path, steps, variables, index, name);
      usedNames := usedNames + {name};
      steps := HandOff(steps, index, name);
      variables := variables + [VariableOf(path[index], index, name)];
    }
    var ids := Map(path, (r: Relationship) => r.id);
    w := Workflow(idOf(ids), steps, variables, ids);
  }

  /** The first step is the operation the path starts from, and each later step the one a hand-off leads to. */
  lemma StepsRead(path: seq<Relationship>, idOf: seq<string> -> string, w: Workflow)
    requires path != [] && IsWorkflowOf(path, idOf, w)
    ensures w.steps[0].operationMethod == path[0].producer.operationMethod && w.steps[0].operationPath == path[0].producer.operationPath
    ensures forall i: nat :: i < |path| ==>
              && w.steps[i + 1].operationMethod == path[i].consumer.operationMethod
              && w.steps[i + 1].operationPath == path[i].consumer.operationPath
  {
    assert IsStep(path, w.variables, |path|, w.steps[0], 0);
    forall i: nat | i < |path|
      ensures w.steps[i + 1].operationMethod == path[i].consumer.operationMethod
           && w.steps[i + 1].operationPath == path[i].consumer.operationPath
    {
      assert IsStep(path, w.variables, |path|, w.steps[i + 1], i + 1);
    }
  }

  /** A base that is free is the name; otherwise the least number from two on that makes a free name follows it. */
  lemma FirstFreeReads(base: string, used: set<string>, name: string) returns (k: nat)
    requires FirstFree(base, used, name)
    ensures name !in used && k >= 1
    ensures k == 1 ==> name == base
    ensures k > 1 ==> base in used && name == base + Decimal(k) && forall j: nat :: 2 <= j < k ==> base + Decimal(j) in used
  {
    k :| k >= 1 && name == NameTried(base, k) && forall j: nat {:trigger NameTried(base, j)} :: 1 <= j < k ==> NameTried(base, j) in used;
    if k > 1 { assert NameTried(base, 1) == base; }
    forall j: nat | 2 <= j < k ensures base + Decimal(j) in used { assert NameTried(base, j) == base + Decimal(j); }
  }

  /** No two variables of a workflow share a name, and every name starts with the field it carries. */
  lemma VariableNamesDiffer(path: seq<Relationship>, idOf: seq<string> -> string, w: Workflow)
    requires path != [] && IsWorkflowOf(path, idOf, w)
    ensures Distinct(Map(w.variables, (v: WorkflowVariable) => v.name))
    ensures forall i: nat :: i < |path| ==> LastSegment(path[i].consumer.field) <= w.variables[i].name
  {
    forall i: nat, j: nat | i < j < |path| ensures w.variables[i].name != w.variables[j].name {
      assert IsVariable(path, w.variables, j);
      assert w.variables[i] in w.variables[..j];
      assert w.variables[i].name in NamesBefore(w.variables, j);
    }
    forall i: nat | i < |path| ensures LastSegment(path[i].consumer.field) <= w.variables[i].name {
      assert IsVariable(path, w.variables, i);
    }
  }

  /** What a step produces is consumed by the next step and by no other. */
  lemma VariablesFlowForward(path: seq<Relationship>, idOf: seq<string> -> string, w: Workflow, i: nat, name: string)
    requires path != [] && IsWorkflowOf(path, idOf, w) && i <= |path|
    requires name in w.steps[i].producesVariableNames
    ensures i < |path| && w.steps[i].producesVariableNames == [name] && w.steps[i + 1].consumesVariableNames == [name]
    ensures forall j: nat :: j <= |path| && name in w.steps[j].consumesVariableNames ==> j == i + 1
  {
    assert IsStep(path, w.variables, |path|, w.steps[i], i);
    assert IsStep(path, w.variables, |path|, w.steps[i + 1], i + 1);
    VariableNamesDiffer(path, idOf, w);
    var names := Map(w.variables, (v: WorkflowVariable) => v.name);
    forall j: nat | j <= |path| && name in w.steps[j].consumesVariableNames ensures j == i + 1 {
      assert IsStep(path, w.variables, |path|, w.steps[j], j);
      assert names[j - 1] == names[i];
    }
  }
}
