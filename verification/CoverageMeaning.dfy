/** What a filtered view shows, said of the requirements, scenarios and gaps of the snapshot themselves. */
module CoverageMeaning {
  import opened CoverageClassification
  import opened CoverageGaps
  import opened CoverageFilter
  import opened CoverageRefiltering
  import opened CoverageTotals
  import opened Sequences
  import opened Ordering

  // ---- Which rows a view has ----

  /** The requirement belongs to the operation and to the category asked for. */
  ghost predicate Asked(filter: ViewFilter, key: string, r: Requirement) {
    r.operationKey == key && (filter.category.Some? ==> r.group == filter.category.value)
  }

  /** Its state is one of those asked for. */
  ghost predicate StateAsked(filter: ViewFilter, s: State) {
    && (filter.states != [] ==> s in filter.states)
    && (filter.gapKind == Some(Missing) ==> s == NotCovered || s == GeneratedNotExecuted)
    && (filter.gapKind == Some(FailedKind) ==> s == ExecutedFailed)
    && (filter.gapKind == Some(Insufficient) ==> s == Inconclusive)
    && (filter.gapKind == Some(StaleKind) ==> s == Stale)
  }

  /** The row passes the method, path and priority filters, and has a requirement in the category and in the states asked for. */
  ghost predicate Passes(s: Snapshot, filter: ViewFilter, row: Row) {
    && filter.picks(row.verb, row.path)
    && (filter.priorities == [] || row.priority in filter.priorities)
    && (filter.category.Some? ==> exists r :: r in s.requirements && Asked(filter, row.operationKey, r))
    && (filter.states != [] || filter.gapKind.Some? ==>
          exists r :: r in s.requirements && Asked(filter, row.operationKey, r) && StateAsked(filter, r.state))
  }

  lemma ScopedAsked(requirements: seq<Requirement>, filter: ViewFilter, key: string, r: Requirement)
    ensures r in Scoped(requirements, filter)(key) <==> r in requirements && Asked(filter, key, r)
  {
    var all := OfKey(requirements, OperationOf, key);
    assert r in all <==> r in requirements && HasKey(OperationOf, key)(r);
    if filter.category.Some? { assert r in Filter(all, InGroup(filter.category.value)) <==> r in all && InGroup(filter.category.value)(r); }
  }

  lemma StatesMatch(filter: ViewFilter, s: State)
    ensures filter.MatchesState(s) <==> StateAsked(filter, s)
  {
  }

  lemma KeptIffPasses(s: Snapshot, filter: ViewFilter, row: Row)
    ensures RowKept(filter, row, Scoped(s.requirements, filter)(row.operationKey)) <==> Passes(s, filter, row)
  {
    var scoped := Scoped(s.requirements, filter)(row.operationKey);
    var matching := Filter(scoped, Matches(filter));
    HasMember(scoped);
    HasMember(matching);
    assert forall r :: r in matching <==> r in scoped && Matches(filter)(r);
    forall r ensures r in scoped <==> r in s.requirements && Asked(filter, row.operationKey, r) {
      ScopedAsked(s.requirements, filter, row.operationKey, r);
    }
    forall r | r in scoped ensures Matches(filter)(r) <==> StateAsked(filter, r.state) { StatesMatch(filter, r.state); }
  }

  /** A view has a row for exactly the operations with a row that passes. */
  lemma ViewHasRow(s: Snapshot, filter: ViewFilter, order: ViewOrder, key: string)
    ensures key in KeysOf(Filtered(s, filter, order).operations) <==>
            exists row :: row in s.operations && row.operationKey == key && Passes(s, filter, row)
  {
    KeptKey(s, filter, order.rowLe, key);
    forall row | row in s.operations && row.operationKey == key
      ensures RowKept(filter, row, Scoped(s.requirements, filter)(key)) <==> Passes(s, filter, row)
    {
      KeptIffPasses(s, filter, row);
    }
  }

  /** A row of a view is a row of the snapshot that passes, and counts the requirements that match. */
  lemma ViewRowIs(s: Snapshot, filter: ViewFilter, order: ViewOrder, r: Row)
    requires r in Filtered(s, filter, order).operations
    ensures exists row :: row in s.operations && Passes(s, filter, row) && r == row.(figures := r.figures, matching := r.matching)
                          && (filter.states == [] && filter.gapKind.None? ==> r.matching == row.matching)
    ensures filter.states != [] || filter.gapKind.Some? ==>
              r.matching == Some(|Filter(Filter(s.requirements, (x: Requirement) => Asked(filter, r.operationKey, x)), (x: Requirement) => StateAsked(filter, x.state))|)
  {
    SortByMembers(FlatMap(s.operations, RowResult(s, filter)), order.rowLe);
    ViewRowOrigin(s, filter, s.operations, r);
    var row :| row in s.operations && RowResult(s, filter)(row) == [r];
    RowResultKey(s, filter, row);
    KeptIffPasses(s, filter, row);
    var scoped := Scoped(s.requirements, filter)(row.operationKey);
    assert r == [r][0] == RowOf(filter, row, scoped, ScopedScenarios(s.scenarios, filter)(row.operationKey));
    ScopedIs(s.requirements, filter, row.operationKey);
    forall x | x in scoped ensures Matches(filter)(x) == StateAsked(filter, x.state) { StatesMatch(filter, x.state); }
    FilterSame(scoped, Matches(filter), (x: Requirement) => StateAsked(filter, x.state));
  }

  lemma ScopedIs(requirements: seq<Requirement>, filter: ViewFilter, key: string)
    ensures Scoped(requirements, filter)(key) == Filter(requirements, (x: Requirement) => Asked(filter, key, x))
  {
    var own := HasKey(OperationOf, key);
    if filter.category.Some? {
      FilterTwice(requirements, own, InGroup(filter.category.value), (x: Requirement) => Asked(filter, key, x));
    } else {
      FilterSame(requirements, own, (x: Requirement) => Asked(filter, key, x));
    }
  }

  /** What the rows contribute, when each contributes what belongs to its own operation. */
  lemma RowsContribute<T(!new)>(rows: seq<Row>, f: Row -> seq<T>, key: string, x: T, asked: bool)
    requires forall row :: row in rows ==> (x in f(row) <==> asked && row.operationKey == key)
    ensures x in FlatMap(rows, f) <==> asked && key in KeysOf(rows)
  {
    FlatMapMember(rows, f, x);
    if i :| 0 <= i < |rows| && x in f(rows[i]) {
      assert rows[i] in rows;
    }
    if asked && key in KeysOf(rows) {
      var row :| row in rows && row.operationKey == key;
      var i :| 0 <= i < |rows| && rows[i] == row;
      assert x in f(rows[i]);
    }
  }

  /** A view lists exactly the requirements of its operations in the category asked for. */
  lemma ViewListsRequirements(s: Snapshot, filter: ViewFilter, order: ViewOrder, r: Requirement)
    ensures var view := Filtered(s, filter, order);
            r in view.requirements <==> r in s.requirements && r.operationKey in KeysOf(view.operations) && Asked(filter, r.operationKey, r)
  {
    var rows := KeptRows(s, filter, order.rowLe);
    var asked := r in s.requirements && Asked(filter, r.operationKey, r);
    forall row | row in rows ensures r in RowRequirements(s, filter)(row) <==> asked && row.operationKey == r.operationKey {
      ScopedAsked(s.requirements, filter, row.operationKey, r);
    }
    RowsContribute(rows, RowRequirements(s, filter), r.operationKey, r, asked);
  }

  lemma ScopedScenarioAsked(scenarios: seq<Scenario>, filter: ViewFilter, key: string, x: Scenario)
    ensures x in ScopedScenarios(scenarios, filter)(key) <==>
            x in scenarios && x.operationKey == key && (filter.category.Some? ==> x.group == filter.category.value)
  {
    var all := OfKey(scenarios, ScenarioOperation, key);
    assert x in all <==> x in scenarios && HasKey(ScenarioOperation, key)(x);
    if filter.category.Some? {
      assert x in Filter(all, ScenarioInGroup(filter.category.value)) <==> x in all && ScenarioInGroup(filter.category.value)(x);
    }
  }

  /** A view lists exactly the scenarios of its operations in the category asked for. */
  lemma ViewListsScenarios(s: Snapshot, filter: ViewFilter, order: ViewOrder, x: Scenario)
    ensures var view := Filtered(s, filter, order);
            x in view.scenarios <==> x in s.scenarios && x.operationKey in KeysOf(view.operations)
                                     && (filter.category.Some? ==> x.group == filter.category.value)
  {
    var rows := KeptRows(s, filter, order.rowLe);
    var asked := x in s.scenarios && (filter.category.Some? ==> x.group == filter.category.value);
    forall row | row in rows ensures x in RowScenarios(s, filter)(row) <==> asked && row.operationKey == x.operationKey {
      ScopedScenarioAsked(s.scenarios, filter, row.operationKey, x);
    }
    RowsContribute(rows, RowScenarios(s, filter), x.operationKey, x, asked);
  }

  ghost predicate GapAsked(filter: ViewFilter, keys: set<string>, g: Gap) {
    && g.operationKey in keys && StateAsked(filter, g.state)
    && (filter.category.Some? ==> filter.category.value in g.categoryGroups)
    && (filter.priorities != [] ==> g.priority in filter.priorities)
  }

  /** A view keeps exactly the gaps of its operations in the states, the category and the priorities asked for, in their order. */
  lemma ViewKeepsGaps(s: Snapshot, filter: ViewFilter, order: ViewOrder)
    ensures var view := Filtered(s, filter, order);
            view.gaps == Filter(s.gaps, (g: Gap) => GapAsked(filter, KeysOf(view.operations), g))
  {
    var keys := KeysOf(Filtered(s, filter, order).operations);
    forall g | g in s.gaps ensures GapKept(filter, keys)(g) == GapAsked(filter, keys, g) { StatesMatch(filter, g.state); }
    FilterSame(s.gaps, GapKept(filter, keys), (g: Gap) => GapAsked(filter, keys, g));
  }

  /** A gap lists the ids of its requirements in order and the categories among them, and is scored by its state. */
  lemma GapTells(scoring: Scoring, d: Draft)
    ensures var g := GapOf(scoring, d);
            && g.operationKey == d.operationKey && g.kind == d.kind && g.cause == d.cause
            && multiset(g.requirementIds) == multiset(Map(d.members, (r: Requirement) => r.id)) && Sorted(g.requirementIds, CodeUnitLe)
            && (forall c :: c in g.categoryGroups <==> c != Unclassified && exists r :: r in d.members && r.group == c)
            && (g.priority, g.score) == scoring.assess(d.operationKey, d.kind, g.state)
  {
    var ids := Map(d.members, IdOf);
    assert ids == Map(d.members, (r: Requirement) => r.id);
    CodeUnitOrder();
    SortBySorted(ids, CodeUnitLe);
    SortByPermutes(ids, CodeUnitLe);
  }

  // ---- What the figures count ----

  /** Each figure of a row, as a count over its requirements and scenarios; the happy path is left out of the fraction. */
  lemma FiguresCount(requirements: seq<Requirement>, scenarios: seq<Scenario>, s: State, v: ScenarioVerdict)
    ensures var f := FiguresOf(requirements, scenarios);
            && f.total == |Filter(requirements, (r: Requirement) => !r.kind.OperationKind?)|
            && f.covered == |Filter(requirements, (r: Requirement) => !r.kind.OperationKind? && !r.state.NotCovered?)|
            && f.verified == |Filter(requirements, (r: Requirement) => !r.kind.OperationKind? && r.state.Verified?)|
            && f.stateCounts[s] == |Filter(requirements, (r: Requirement) => r.state == s)|
            && f.verdicts[v] == |Filter(scenarios, (x: Scenario) => x.verdict == v)|
            && f.scenarioCount == |scenarios|
  {
    FilterSame(requirements, InFraction, (r: Requirement) => !r.kind.OperationKind?);
    FilterTwice(requirements, InFraction, IsCovered, (r: Requirement) => !r.kind.OperationKind? && !r.state.NotCovered?);
    FilterTwice(requirements, InFraction, IsVerified, (r: Requirement) => !r.kind.OperationKind? && r.state.Verified?);
    StatesCounted(requirements, s);
    VerdictsCounted(scenarios, v);
  }

  lemma {:induction false} StatesCounted(requirements: seq<Requirement>, s: State)
    ensures multiset(Map(requirements, StateOf))[s] == |Filter(requirements, (r: Requirement) => r.state == s)|
  {
    if requirements != [] {
      StatesCounted(requirements[1..], s);
      assert Map(requirements, StateOf) == [requirements[0].state] + Map(requirements[1..], StateOf);
    }
  }

  lemma {:induction false} VerdictsCounted(scenarios: seq<Scenario>, v: ScenarioVerdict)
    ensures multiset(Map(scenarios, VerdictOf))[v] == |Filter(scenarios, (x: Scenario) => x.verdict == v)|
  {
    if scenarios != [] {
      VerdictsCounted(scenarios[1..], v);
      assert Map(scenarios, VerdictOf) == [scenarios[0].verdict] + Map(scenarios[1..], VerdictOf);
    }
  }

  /** The assertions of a row are those of its scenarios, one by one. */
  lemma {:induction false} AssertionsAdd(requirements: seq<Requirement>, scenarios: seq<Scenario>, x: Scenario)
    ensures var f, g := FiguresOf(requirements, scenarios + [x]), FiguresOf(requirements, scenarios);
            f.passed == g.passed + x.passed && f.failed == g.failed + x.failed && f.notEvaluated == g.notEvaluated + x.notEvaluated
    ensures var none := FiguresOf(requirements, []); none.passed == none.failed == none.notEvaluated == 0
  {
    assert (scenarios + [x])[..|scenarios|] == scenarios;
  }

  /** The five operation counts, over the rows of a view. */
  lemma OperationCountsCount(rows: seq<Row>)
    ensures var c := OperationCountsFor(rows);
            && c.eligible == |rows| == c.withScenarios + c.withNoScenarios
            && c.withScenarios == |Filter(rows, (r: Row) => r.figures.scenarioCount != 0)|
            && c.withPassingVerification == |Filter(rows, (r: Row) => PassedScenario in r.figures.verdicts)|
            && c.withFailures == |Filter(rows, (r: Row) => FailedScenario in r.figures.verdicts)|
  {
    FilterSame(rows, HasScenarios, (r: Row) => r.figures.scenarioCount != 0);
    FilterSame(rows, HasPassed, (r: Row) => PassedScenario in r.figures.verdicts);
    FilterSame(rows, HasFailed, (r: Row) => FailedScenario in r.figures.verdicts);
  }

  ghost predicate Counts(m: Metric, id: string, numerator: nat, denominator: nat) {
    m.id == id && m.numerator == numerator && m.denominator == denominator
  }

  /** The eight metric cards: what each one counts. */
  lemma MetricsCount(requirements: seq<Requirement>, counts: OperationCounts, assertions: AssertionOutcomes)
    ensures var m := MetricsFor(requirements, counts, assertions);
            && |m| == 8
            && Counts(m[0], "spec-operations", counts.withScenarios, counts.eligible)
            && Counts(m[1], "spec-parameters", CoveredOf(requirements, Parameter), AllOf(requirements, Parameter))
            && Counts(m[2], "spec-request-schemas", CoveredOf(requirements, RequestSchema), AllOf(requirements, RequestSchema))
            && Counts(m[3], "spec-response-schemas", CoveredOf(requirements, ResponseSchema), AllOf(requirements, ResponseSchema))
            && Counts(m[4], "spec-response-codes", CoveredOf(requirements, ResponseCode), AllOf(requirements, ResponseCode))
            && Counts(m[5], "runtime-operations", counts.withPassingVerification, counts.eligible)
            && Counts(m[6], "runtime-response-codes", VerifiedCodes(requirements), AllOf(requirements, ResponseCode))
            && Counts(m[7], "runtime-assertions", assertions.passed, assertions.passed + assertions.failed)
  {
    MetricCounts("spec-parameters", requirements, Parameter);
    MetricCounts("spec-request-schemas", requirements, RequestSchema);
    MetricCounts("spec-response-schemas", requirements, ResponseSchema);
    MetricCounts("spec-response-codes", requirements, ResponseCode);
    CodesCount("runtime-response-codes", requirements);
  }

  lemma MetricCounts(id: string, requirements: seq<Requirement>, kind: Kind)
    ensures Counts(MetricOf(id, requirements, kind, IsCovered), id, CoveredOf(requirements, kind), AllOf(requirements, kind))
  {
    KindCounts(requirements, kind);
  }

  lemma CodesCount(id: string, requirements: seq<Requirement>)
    ensures Counts(MetricOf(id, requirements, ResponseCode, IsVerified), id, VerifiedCodes(requirements), AllOf(requirements, ResponseCode))
  {
    KindCounts(requirements, ResponseCode);
    FilterTwice(requirements, IsOfKind(ResponseCode), IsVerified, (r: Requirement) => r.kind == ResponseCode && r.state == Verified);
  }

  ghost function AllOf(requirements: seq<Requirement>, kind: Kind): nat {
    |Filter(requirements, (r: Requirement) => r.kind == kind)|
  }

  ghost function CoveredOf(requirements: seq<Requirement>, kind: Kind): nat {
    |Filter(requirements, (r: Requirement) => r.kind == kind && r.state != NotCovered)|
  }

  ghost function VerifiedCodes(requirements: seq<Requirement>): nat {
    |Filter(requirements, (r: Requirement) => r.kind == ResponseCode && r.state == Verified)|
  }

  lemma KindCounts(requirements: seq<Requirement>, kind: Kind)
    ensures |Filter(requirements, IsOfKind(kind))| == AllOf(requirements, kind)
    ensures |Filter(Filter(requirements, IsOfKind(kind)), IsCovered)| == CoveredOf(requirements, kind)
  {
    FilterSame(requirements, IsOfKind(kind), (r: Requirement) => r.kind == kind);
    FilterTwice(requirements, IsOfKind(kind), IsCovered, (r: Requirement) => r.kind == kind && r.state != NotCovered);
  }

  ghost predicate CategoryCounts(c: Category, requirements: seq<Requirement>, g: Group, s: State) {
    && c.group == g
    && c.eligible == |Filter(requirements, (r: Requirement) => r.group == g)|
    && c.specCovered == |Filter(requirements, (r: Requirement) => r.group == g && r.state != NotCovered)|
    && c.counts[s] == |Filter(requirements, (r: Requirement) => r.group == g && r.state == s)|
  }

  /** The category section: positive, negative and boundary, counted over the requirements given. */
  lemma CategoriesCount(requirements: seq<Requirement>, s: State)
    ensures var c := Categories(requirements);
            && |c| == 3 && CategoryCounts(c[0], requirements, Positive, s) && CategoryCounts(c[1], requirements, Negative, s)
            && CategoryCounts(c[2], requirements, Boundary, s)
  {
    CategoryCount(requirements, Positive, s);
    CategoryCount(requirements, Negative, s);
    CategoryCount(requirements, Boundary, s);
  }

  lemma CategoryCount(requirements: seq<Requirement>, g: Group, s: State)
    ensures CategoryCounts(CategoryOf(requirements, g), requirements, g, s)
  {
    FilterSame(requirements, InGroup(g), (r: Requirement) => r.group == g);
    FilterTwice(requirements, InGroup(g), IsCovered, (r: Requirement) => r.group == g && r.state != NotCovered);
    StatesCounted(Filter(requirements, InGroup(g)), s);
    FilterTwice(requirements, InGroup(g), (r: Requirement) => r.state == s, (r: Requirement) => r.group == g && r.state == s);
  }

  /** The unclassified list names every unclassified requirement once, by operation and then by label. */
  lemma UnclassifiedLists(requirements: seq<Requirement>, scenarios: nat, le: (string, string) -> bool)
    requires TotalPreorder(le) && Antisymmetric(le)
    ensures var u := UnclassifiedFor(requirements, scenarios, le);
            && u.scenarios == scenarios
            && multiset(u.requirements) ==
               multiset(Map(Filter(requirements, (r: Requirement) => r.group == Unclassified), (r: Requirement) => Named(r.operationKey, r.name)))
            && forall i, j :: 0 <= i < j < |u.requirements| ==>
                 var a, b := u.requirements[i], u.requirements[j];
                 le(a.operationKey, b.operationKey) && (a.operationKey == b.operationKey ==> le(a.name, b.name))
  {
    var names := Map(Filter(requirements, InGroup(Unclassified)), NamedOf);
    var order := ByOperationAndLabel(le);
    FilterSame(requirements, InGroup(Unclassified), (r: Requirement) => r.group == Unclassified);
    assert names == Map(Filter(requirements, (r: Requirement) => r.group == Unclassified), (r: Requirement) => Named(r.operationKey, r.name));
    NamedOrder(le);
    SortBySorted(names, order);
    SortByPermutes(names, order);
    var sorted := SortBy(names, order);
    forall i, j | 0 <= i < j < |sorted|
      ensures le(sorted[i].operationKey, sorted[j].operationKey)
      ensures sorted[i].operationKey == sorted[j].operationKey ==> le(sorted[i].name, sorted[j].name)
    {
      assert order(sorted[i], sorted[j]);
    }
  }
}
