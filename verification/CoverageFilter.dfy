/**
 * The views of a coverage snapshot and the filter over them (backend/src/apiCoverage/summarize.ts and
 * backend/src/apiCoverage/filterSnapshot.ts).
 */
module CoverageFilter {
  import opened CoverageClassification
  import opened CoverageGaps
  import opened Sequences
  import opened Ordering

  // ---- Gaps ----

  datatype Priority = High | Medium | Low

  datatype Gap = Gap(
    operationKey: string, kind: Option<Kind>, cause: Option<Cause>, requirementIds: seq<string>,
    state: State, categoryGroups: set<Group>, priority: Priority, score: int)

  /** `le` is the comparison of ids by `localeCompare`, `assess` scores a gap, `gapLe` is the order gaps are listed in. */
  datatype Scoring = Scoring(
    le: (string, string) -> bool, assess: (string, Option<Kind>, State) -> (Priority, int), gapLe: (Gap, Gap) -> bool)

  function IdOf(r: Requirement): string {
    r.id
  }

  function GapOf(scoring: Scoring, d: Draft): Gap {
    var worst := WorstState(d.members, scoring.le);
    var assessment := scoring.assess(d.operationKey, d.kind, worst);
    Gap(d.operationKey, d.kind, d.cause, SortBy(Map(d.members, IdOf), CodeUnitLe), worst,
        set r | r in d.members && !r.group.Unclassified? :: r.group, assessment.0, assessment.1)
  }

  function ScoredBy(scoring: Scoring): Draft -> Gap {
    (d: Draft) => GapOf(scoring, d)
  }

  function OperationGaps(requirements: seq<Requirement>, scenarioCount: nat, scoring: Scoring, operationKey: string): seq<Gap> {
    Map(Drafts(operationKey, OfKey(requirements, OperationOf, operationKey), scenarioCount), ScoredBy(scoring))
  }

  function GapsOfEach(requirements: seq<Requirement>, scenarioCountOf: string -> nat, scoring: Scoring): string -> seq<Gap> {
    (operationKey: string) => OperationGaps(requirements, scenarioCountOf(operationKey), scoring, operationKey)
  }

  /** The gaps of `buildViews`: those of every operation, in the order they are listed. */
  method BuildGaps(operationKeys: seq<string>, requirements: seq<Requirement>, scenarioCountOf: string -> nat, scoring: Scoring)
    returns (gaps: seq<Gap>)
    ensures gaps == SortBy(FlatMap(operationKeys, GapsOfEach(requirements, scenarioCountOf, scoring)), scoring.gapLe)
  {
    var keys, byOperation := GroupBy(requirements, OperationOf);
    gaps := [];
    for i := 0 to |operationKeys|
      invariant gaps == FlatMap(operationKeys[..i], GapsOfEach(requirements, scenarioCountOf, scoring))
    {
      var key := operationKeys[i];
      FlatMapPush(operationKeys, i, GapsOfEach(requirements, scenarioCountOf, scoring));
      assert GroupAt(requirements, OperationOf, byOperation, key);
      NoGroup(requirements, keys, byOperation, key);
      var drafts := DraftGaps(key, if key in byOperation then byOperation[key] else [], scenarioCountOf(key));
      gaps := gaps + Map(drafts, ScoredBy(scoring));
    }
    assert operationKeys[..|operationKeys|] == operationKeys;
    gaps := SortBy(gaps, scoring.gapLe);
  }

  lemma NoGroup(requirements: seq<Requirement>, keys: seq<string>, byOperation: map<string, seq<Requirement>>, key: string)
    requires Grouped(requirements, OperationOf, keys, byOperation)
    ensures key !in byOperation ==> OfKey(requirements, OperationOf, key) == []
  {
    FirstKeysComplete(requirements, OperationOf);
    HasMember(OfKey(requirements, OperationOf, key));
  }

  // ---- The filter ----

  datatype GapKind = Missing | FailedKind | Insufficient | StaleKind

  /** The families of gaps: every state but `verified` belongs to exactly one. */
  predicate InFamily(kind: GapKind, s: State) {
    match kind
    case Missing => s.NotCovered? || s.GeneratedNotExecuted?
    case FailedKind => s.ExecutedFailed?
    case Insufficient => s.Inconclusive?
    case StaleKind => s.Stale?
  }

  /** `picks` is the method and path part of the filter; an empty list stands for a filter that is not set. */
  datatype ViewFilter = ViewFilter(
    picks: (string, string) -> bool, states: seq<State>, gapKind: Option<GapKind>, category: Option<Group>, priorities: seq<Priority>)
  {
    predicate StateFilterActive() {
      states != [] || gapKind.Some?
    }

    predicate MatchesState(s: State) {
      (states != [] ==> s in states) && (gapKind.Some? ==> InFamily(gapKind.value, s))
    }
  }

  datatype ScenarioVerdict = PassedScenario | FailedScenario | InconclusiveScenario | NotExecutedScenario

  datatype Scenario = Scenario(
    id: string, operationKey: string, group: Group, verdict: ScenarioVerdict, passed: nat, failed: nat, notEvaluated: nat)

  function ScenarioOperation(s: Scenario): string {
    s.operationKey
  }

  function InGroup(g: Group): Requirement -> bool {
    (r: Requirement) => r.group == g
  }

  function ScenarioInGroup(g: Group): Scenario -> bool {
    (s: Scenario) => s.group == g
  }

  /** The requirements of one operation that the category filter leaves. */
  function Scoped(requirements: seq<Requirement>, filter: ViewFilter): string -> seq<Requirement> {
    (key: string) =>
      var all := OfKey(requirements, OperationOf, key);
      if filter.category.Some? then Filter(all, InGroup(filter.category.value)) else all
  }

  function ScopedScenarios(scenarios: seq<Scenario>, filter: ViewFilter): string -> seq<Scenario> {
    (key: string) =>
      var all := OfKey(scenarios, ScenarioOperation, key);
      if filter.category.Some? then Filter(all, ScenarioInGroup(filter.category.value)) else all
  }

  function Matches(filter: ViewFilter): Requirement -> bool {
    (r: Requirement) => filter.MatchesState(r.state)
  }

  predicate GapMatches(filter: ViewFilter, gap: Gap) {
    && filter.MatchesState(gap.state)
    && (filter.category.Some? ==> filter.category.value in gap.categoryGroups)
    && (filter.priorities != [] ==> gap.priority in filter.priorities)
  }

  // ---- Rows ----

  /** The figures of one row; `stateCounts` and `verdicts` hold a count per state and per verdict. */
  datatype Figures = Figures(
    covered: nat, verified: nat, total: nat, stateCounts: multiset<State>, verdicts: multiset<ScenarioVerdict>,
    scenarioCount: nat, passed: nat, failed: nat, notEvaluated: nat)

  datatype Row = Row(operationKey: string, verb: string, path: string, priority: Priority, figures: Figures, matching: Option<nat>)

  predicate InFraction(r: Requirement) {
    !r.kind.OperationKind?
  }

  predicate IsCovered(r: Requirement) {
    !r.state.NotCovered?
  }

  function StateOf(r: Requirement): State {
    r.state
  }

  function VerdictOf(s: Scenario): ScenarioVerdict {
    s.verdict
  }

  function Sum(scenarios: seq<Scenario>, count: Scenario -> nat): nat {
    if scenarios == [] then 0 else Sum(scenarios[..|scenarios| - 1], count) + count(scenarios[|scenarios| - 1])
  }

  function PassedIn(s: Scenario): nat {
    s.passed
  }

  function FailedIn(s: Scenario): nat {
    s.failed
  }

  function NotEvaluatedIn(s: Scenario): nat {
    s.notEvaluated
  }

  function FiguresOf(requirements: seq<Requirement>, scenarios: seq<Scenario>): Figures {
    var fraction := Filter(requirements, InFraction);
    Figures(|Filter(fraction, IsCovered)|, |Filter(fraction, IsVerified)|, |fraction|,
            multiset(Map(requirements, StateOf)), multiset(Map(scenarios, VerdictOf)), |scenarios|,
            Sum(scenarios, PassedIn), Sum(scenarios, FailedIn), Sum(scenarios, NotEvaluatedIn))
  }

  lemma MapPush<T, U>(s: seq<T>, i: nat, f: T -> U)
    requires i < |s|
    ensures Map(s[..i + 1], f) == Map(s[..i], f) + [f(s[i])]
  {
    assert s[..i + 1] == s[..i] + [s[i]];
    MapAppend(s[..i], [s[i]], f);
  }

  method CountStates(requirements: seq<Requirement>) returns (stateCounts: multiset<State>)
    ensures stateCounts == multiset(Map(requirements, StateOf))
  {
    stateCounts := multiset{};
    for i := 0 to |requirements|
      invariant stateCounts == multiset(Map(requirements[..i], StateOf))
    {
      MapPush(requirements, i, StateOf);
      stateCounts := stateCounts + multiset{requirements[i].state};
    }
    assert requirements[..|requirements|] == requirements;
  }

  method CountVerdicts(scenarios: seq<Scenario>) returns (verdicts: multiset<ScenarioVerdict>)
    ensures verdicts == multiset(Map(scenarios, VerdictOf))
  {
    verdicts := multiset{};
    for i := 0 to |scenarios|
      invariant verdicts == multiset(Map(scenarios[..i], VerdictOf))
    {
      MapPush(scenarios, i, VerdictOf);
      verdicts := verdicts + multiset{scenarios[i].verdict};
    }
    assert scenarios[..|scenarios|] == scenarios;
  }

  method SumAssertions(scenarios: seq<Scenario>) returns (passed: nat, failed: nat, notEvaluated: nat)
    ensures passed == Sum(scenarios, PassedIn) && failed == Sum(scenarios, FailedIn) && notEvaluated == Sum(scenarios, NotEvaluatedIn)
  {
    passed, failed, notEvaluated := 0, 0, 0;
    for i := 0 to |scenarios|
      invariant passed == Sum(scenarios[..i], PassedIn) && failed == Sum(scenarios[..i], FailedIn)
      invariant notEvaluated == Sum(scenarios[..i], NotEvaluatedIn)
    {
      assert scenarios[..i + 1][..i] == scenarios[..i];
      passed, failed := passed + scenarios[i].passed, failed + scenarios[i].failed;
      notEvaluated := notEvaluated + scenarios[i].notEvaluated;
    }
    assert scenarios[..|scenarios|] == scenarios;
  }

  method RecomputeRow(row: Row, requirements: seq<Requirement>, scenarios: seq<Scenario>) returns (recomputed: Row)
    ensures recomputed == row.(figures := FiguresOf(requirements, scenarios))
  {
    var fraction := Filter(requirements, InFraction);
    var stateCounts := CountStates(requirements);
    var verdicts := CountVerdicts(scenarios);
    var passed, failed, notEvaluated := SumAssertions(scenarios);
    recomputed := row.(figures := Figures(|Filter(fraction, IsCovered)|, |Filter(fraction, IsVerified)|, |fraction|,
                                          stateCounts, verdicts, |scenarios|, passed, failed, notEvaluated));
  }

  function StateCount(s: multiset<State>): nat {
    s[NotCovered] + s[GeneratedNotExecuted] + s[Stale] + s[Inconclusive] + s[Verified] + s[ExecutedFailed]
  }

  function VerdictCount(s: multiset<ScenarioVerdict>): nat {
    s[PassedScenario] + s[FailedScenario] + s[InconclusiveScenario] + s[NotExecutedScenario]
  }

  lemma {:induction false} StatesSum(states: seq<State>)
    ensures StateCount(multiset(states)) == |states|
  {
    if states != [] {
      assert states == [states[0]] + states[1..];
      StatesSum(states[1..]);
      match states[0] {
        case NotCovered =>
        case GeneratedNotExecuted =>
        case Stale =>
        case Inconclusive =>
        case Verified =>
        case ExecutedFailed =>
      }
    }
  }

  lemma {:induction false} VerdictsSum(verdicts: seq<ScenarioVerdict>)
    ensures VerdictCount(multiset(verdicts)) == |verdicts|
  {
    if verdicts != [] {
      assert verdicts == [verdicts[0]] + verdicts[1..];
      VerdictsSum(verdicts[1..]);
      match verdicts[0] {
        case PassedScenario =>
        case FailedScenario =>
        case InconclusiveScenario =>
        case NotExecutedScenario =>
      }
    }
  }

  /** The figures of a row account for every requirement and every scenario, and no numerator exceeds its denominator. */
  lemma FiguresAddUp(requirements: seq<Requirement>, scenarios: seq<Scenario>)
    ensures var f := FiguresOf(requirements, scenarios);
            && f.verified <= f.covered <= f.total <= |requirements|
            && StateCount(f.stateCounts) == |requirements|
            && VerdictCount(f.verdicts) == f.scenarioCount == |scenarios|
  {
    StatesSum(Map(requirements, StateOf));
    VerdictsSum(Map(scenarios, VerdictOf));
    var fraction := Filter(requirements, InFraction);
    FilterTwice(fraction, IsCovered, IsVerified, IsVerified);
  }

  // ---- The filtered snapshot ----

  datatype Category = Category(group: Group, eligible: nat, specCovered: nat, counts: multiset<State>)

  datatype Named = Named(operationKey: string, name: string)

  /** `scenarios` is counted once for the full snapshot and passed on. */
  datatype UnclassifiedPart = UnclassifiedPart(requirements: seq<Named>, scenarios: nat)

  datatype OperationCounts = OperationCounts(
    eligible: nat, withScenarios: nat, withPassingVerification: nat, withFailures: nat, withNoScenarios: nat)

  datatype AssertionOutcomes = AssertionOutcomes(passed: nat, failed: nat, notEvaluated: nat)

  datatype Metric = Metric(id: string, numerator: nat, denominator: nat)

  datatype Snapshot = Snapshot(
    operations: seq<Row>, requirements: seq<Requirement>, scenarios: seq<Scenario>, gaps: seq<Gap>, categories: seq<Category>,
    unclassified: UnclassifiedPart, operationCounts: OperationCounts, assertionOutcomes: AssertionOutcomes, metrics: seq<Metric>)

  function NamedOf(r: Requirement): Named {
    Named(r.operationKey, r.name)
  }

  /** `a.operationKey.localeCompare(b.operationKey) || a.label.localeCompare(b.label)` */
  function ByOperationAndLabel(le: (string, string) -> bool): (Named, Named) -> bool {
    (a: Named, b: Named) =>
      if le(a.operationKey, b.operationKey) && le(b.operationKey, a.operationKey) then le(a.name, b.name)
      else le(a.operationKey, b.operationKey)
  }

  function UnclassifiedFor(requirements: seq<Requirement>, scenarios: nat, le: (string, string) -> bool): UnclassifiedPart {
    UnclassifiedPart(SortBy(Map(Filter(requirements, InGroup(Unclassified)), NamedOf), ByOperationAndLabel(le)), scenarios)
  }

  predicate HasScenarios(row: Row) {
    row.figures.scenarioCount > 0
  }

  predicate HasPassed(row: Row) {
    row.figures.verdicts[PassedScenario] > 0
  }

  predicate HasFailed(row: Row) {
    row.figures.verdicts[FailedScenario] > 0
  }

  function OperationCountsFor(rows: seq<Row>): OperationCounts {
    var withScenarios := |Filter(rows, HasScenarios)|;
    OperationCounts(|rows|, withScenarios, |Filter(rows, HasPassed)|, |Filter(rows, HasFailed)|, |rows| - withScenarios)
  }

  function TotalOf(rows: seq<Row>, count: Row -> nat): nat {
    if rows == [] then 0 else TotalOf(rows[..|rows| - 1], count) + count(rows[|rows| - 1])
  }

  function AssertionOutcomesFor(rows: seq<Row>): AssertionOutcomes {
    AssertionOutcomes(TotalOf(rows, (r: Row) => r.figures.passed), TotalOf(rows, (r: Row) => r.figures.failed),
                      TotalOf(rows, (r: Row) => r.figures.notEvaluated))
  }

  function IsOfKind(kind: Kind): Requirement -> bool {
    (r: Requirement) => r.kind == kind
  }

  function MetricOf(id: string, requirements: seq<Requirement>, kind: Kind, counts: Requirement -> bool): Metric {
    var ofKind := Filter(requirements, IsOfKind(kind));
    Metric(id, |Filter(ofKind, counts)|, |ofKind|)
  }

  function MetricsFor(requirements: seq<Requirement>, counts: OperationCounts, assertions: AssertionOutcomes): seq<Metric> {
    [Metric("spec-operations", counts.withScenarios, counts.eligible),
     MetricOf("spec-parameters", requirements, Parameter, IsCovered),
     MetricOf("spec-request-schemas", requirements, RequestSchema, IsCovered),
     MetricOf("spec-response-schemas", requirements, ResponseSchema, IsCovered),
     MetricOf("spec-response-codes", requirements, ResponseCode, IsCovered),
     Metric("runtime-operations", counts.withPassingVerification, counts.eligible),
     MetricOf("runtime-response-codes", requirements, ResponseCode, IsVerified),
     Metric("runtime-assertions", assertions.passed, assertions.passed + assertions.failed)]
  }

  /** `makeMetric` throws when a numerator exceeds its denominator; it never does. */
  lemma MetricsAreFractions(rows: seq<Row>, requirements: seq<Requirement>, assertions: AssertionOutcomes)
    ensures forall m :: m in MetricsFor(requirements, OperationCountsFor(rows), assertions) ==> m.numerator <= m.denominator
  {
  }

  function CategoryOf(requirements: seq<Requirement>, g: Group): Category {
    var inGroup := Filter(requirements, InGroup(g));
    Category(g, |inGroup|, |Filter(inGroup, IsCovered)|, multiset(Map(inGroup, StateOf)))
  }

  function Categories(requirements: seq<Requirement>): seq<Category> {
    [CategoryOf(requirements, Positive), CategoryOf(requirements, Negative), CategoryOf(requirements, Boundary)]
  }

  predicate RowKept(filter: ViewFilter, row: Row, scoped: seq<Requirement>) {
    && filter.picks(row.verb, row.path)
    && (filter.priorities != [] ==> row.priority in filter.priorities)
    && (filter.category.Some? ==> scoped != [])
    && (filter.StateFilterActive() ==> Filter(scoped, Matches(filter)) != [])
  }

  function RowOf(filter: ViewFilter, row: Row, scoped: seq<Requirement>, scenarios: seq<Scenario>): Row {
    var recomputed := row.(figures := FiguresOf(scoped, scenarios));
    if filter.StateFilterActive() then recomputed.(matching := Some(|Filter(scoped, Matches(filter))|)) else recomputed
  }

  function RowResult(s: Snapshot, filter: ViewFilter): Row -> seq<Row> {
    (row: Row) =>
      var scoped := Scoped(s.requirements, filter)(row.operationKey);
      if RowKept(filter, row, scoped) then [RowOf(filter, row, scoped, ScopedScenarios(s.scenarios, filter)(row.operationKey))] else []
  }

  function RowKey(row: Row): string {
    row.operationKey
  }

  function KeysOf(rows: seq<Row>): set<string> {
    set row | row in rows :: row.operationKey
  }

  function GapKept(filter: ViewFilter, keys: set<string>): Gap -> bool {
    (gap: Gap) => gap.operationKey in keys && GapMatches(filter, gap)
  }

  function OfKept(keys: set<string>): Requirement -> bool {
    (r: Requirement) => r.operationKey in keys
  }

  function RowRequirements(s: Snapshot, filter: ViewFilter): Row -> seq<Requirement> {
    (row: Row) => Scoped(s.requirements, filter)(row.operationKey)
  }

  function RowScenarios(s: Snapshot, filter: ViewFilter): Row -> seq<Scenario> {
    (row: Row) => ScopedScenarios(s.scenarios, filter)(row.operationKey)
  }

  /** The order rows are sorted in, and the comparison of strings by `localeCompare`. */
  datatype ViewOrder = ViewOrder(rowLe: (Row, Row) -> bool, le: (string, string) -> bool)

  function KeptRows(s: Snapshot, filter: ViewFilter, rowLe: (Row, Row) -> bool): seq<Row> {
    SortBy(FlatMap(s.operations, RowResult(s, filter)), rowLe)
  }

  /** Every section of a view whose rows are `rows`. */
  function Sections(s: Snapshot, filter: ViewFilter, rows: seq<Row>, le: (string, string) -> bool): Snapshot {
    var keys := KeysOf(rows);
    var requirements, allRequirementsOfKept := FlatMap(rows, RowRequirements(s, filter)), Filter(s.requirements, OfKept(keys));
    var operationCounts, assertionOutcomes := OperationCountsFor(rows), AssertionOutcomesFor(rows);
    Snapshot(rows, requirements, FlatMap(rows, RowScenarios(s, filter)), Filter(s.gaps, GapKept(filter, keys)),
             Categories(allRequirementsOfKept), UnclassifiedFor(allRequirementsOfKept, s.unclassified.scenarios, le),
             operationCounts, assertionOutcomes, MetricsFor(requirements, operationCounts, assertionOutcomes))
  }

  function Filtered(s: Snapshot, filter: ViewFilter, order: ViewOrder): Snapshot {
    Sections(s, filter, KeptRows(s, filter, order.rowLe), order.le)
  }

  /** The body of the loop over rows. */
  method FilterRow(s: Snapshot, filter: ViewFilter, row: Row) returns (result: seq<Row>)
    ensures result == RowResult(s, filter)(row)
  {
    var requirements := Scoped(s.requirements, filter)(row.operationKey);
    if !filter.picks(row.verb, row.path) || (|filter.priorities| > 0 && row.priority !in filter.priorities) {
      assert !RowKept(filter, row, requirements);
      return [];
    }
    if filter.category.Some? && |requirements| == 0 {
      return [];
    }
    var matching := Filter(requirements, Matches(filter));
    if filter.StateFilterActive() && |matching| == 0 {
      return [];
    }
    var recomputed := RecomputeRow(row, requirements, ScopedScenarios(s.scenarios, filter)(row.operationKey));
    return [if filter.StateFilterActive() then recomputed.(matching := Some(|matching|)) else recomputed];
  }

  method FilterSnapshot(s: Snapshot, filter: ViewFilter, order: ViewOrder) returns (view: Snapshot)
    ensures view == Filtered(s, filter, order)
  {
    var rows := [];
    for i := 0 to |s.operations|
      invariant rows == FlatMap(s.operations[..i], RowResult(s, filter))
    {
      FlatMapPush(s.operations, i, RowResult(s, filter));
      var result := FilterRow(s, filter, s.operations[i]);
      rows := rows + result;
    }
    assert s.operations[..|s.operations|] == s.operations;
    view := Sections(s, filter, SortBy(rows, order.rowLe), order.le);
  }

  // ---- A row and its gaps survive together ----

  ghost predicate SomeGapMatches(filter: ViewFilter, gaps: seq<Gap>) {
    exists g :: g in gaps && GapMatches(filter, g)
  }

  /** In the states and in the category the filter asks for. */
  predicate InScope(filter: ViewFilter, r: Requirement) {
    filter.MatchesState(r.state) && (filter.category.Some? ==> r.group == filter.category.value)
  }

  /** A gap matches exactly when one of its members is in scope. */
  lemma DraftMatches(d: Draft, scoring: Scoring, filter: ViewFilter)
    requires d.members != [] && filter.priorities == [] && filter.category != Some(Unclassified)
    requires forall r :: r in d.members ==> r.state == WorstState(d.members, scoring.le)
    ensures GapMatches(filter, GapOf(scoring, d)) <==> exists r :: r in d.members && InScope(filter, r)
  {
    var first := d.members[0];
    assert first in d.members;
    if GapMatches(filter, GapOf(scoring, d)) && filter.category.None? { assert InScope(filter, first); }
    if GapMatches(filter, GapOf(scoring, d)) && filter.category.Some? {
      var r :| r in d.members && r.group == filter.category.value;
      assert InScope(filter, r);
    }
  }

  lemma ScopedMember(requirements: seq<Requirement>, filter: ViewFilter, key: string, r: Requirement)
    ensures r in Scoped(requirements, filter)(key) && filter.MatchesState(r.state) <==>
            r in OfKey(requirements, OperationOf, key) && InScope(filter, r)
  {
  }

  lemma MappedDraft(drafts: seq<Draft>, scoring: Scoring, g: Gap)
    ensures g in Map(drafts, ScoredBy(scoring)) <==> exists d :: d in drafts && g == GapOf(scoring, d)
  {
    var gaps := Map(drafts, ScoredBy(scoring));
    if g in gaps {
      var i :| 0 <= i < |gaps| && gaps[i] == g;
      assert drafts[i] in drafts && g == GapOf(scoring, drafts[i]);
    }
    if d :| d in drafts && g == GapOf(scoring, d) {
      var i :| 0 <= i < |drafts| && drafts[i] == d;
      assert gaps[i] == g;
    }
  }

  ghost predicate SomeInScope(filter: ViewFilter, own: seq<Requirement>) {
    exists r :: r in own && InScope(filter, r) && !r.state.Verified?
  }

  lemma GapNeedsRequirement(filter: ViewFilter, own: seq<Requirement>, scenarioCount: nat, scoring: Scoring, key: string)
    requires filter.priorities == [] && filter.category != Some(Unclassified) && UncoveredWithoutScenarios(own, scenarioCount)
    requires SomeGapMatches(filter, Map(Drafts(key, own, scenarioCount), ScoredBy(scoring)))
    ensures SomeInScope(filter, own)
  {
    var drafts := Drafts(key, own, scenarioCount);
    var g :| g in Map(drafts, ScoredBy(scoring)) && GapMatches(filter, g);
    MappedDraft(drafts, scoring, g);
    var d :| d in drafts && g == GapOf(scoring, d);
    GapsAreNotEmpty(key, own, scenarioCount, d);
    GapsAreUniform(key, own, scenarioCount, d, scoring.le);
    DraftMatches(d, scoring, filter);
    var r :| r in d.members && InScope(filter, r);
    GapMembership(key, own, scenarioCount, r);
  }

  lemma RequirementHasGap(filter: ViewFilter, own: seq<Requirement>, scenarioCount: nat, scoring: Scoring, key: string)
    requires filter.priorities == [] && filter.category != Some(Unclassified) && UncoveredWithoutScenarios(own, scenarioCount)
    requires SomeInScope(filter, own)
    ensures SomeGapMatches(filter, Map(Drafts(key, own, scenarioCount), ScoredBy(scoring)))
  {
    var drafts := Drafts(key, own, scenarioCount);
    var r :| r in own && InScope(filter, r) && !r.state.Verified?;
    GapMembership(key, own, scenarioCount, r);
    var d :| d in drafts && r in d.members;
    GapsAreUniform(key, own, scenarioCount, d, scoring.le);
    DraftMatches(d, scoring, filter);
    MappedDraft(drafts, scoring, GapOf(scoring, d));
  }

  /** A gap of the operation matches exactly when one of its requirements in scope matches and is not verified. */
  lemma GapMatchesIffRequirement(
    filter: ViewFilter, requirements: seq<Requirement>, scenarioCount: nat, scoring: Scoring, key: string)
    requires filter.priorities == [] && filter.category != Some(Unclassified)
    requires UncoveredWithoutScenarios(OfKey(requirements, OperationOf, key), scenarioCount)
    ensures SomeGapMatches(filter, OperationGaps(requirements, scenarioCount, scoring, key)) <==>
            exists r :: r in Scoped(requirements, filter)(key) && filter.MatchesState(r.state) && !r.state.Verified?
  {
    var own := OfKey(requirements, OperationOf, key);
    if SomeGapMatches(filter, OperationGaps(requirements, scenarioCount, scoring, key)) {
      GapNeedsRequirement(filter, own, scenarioCount, scoring, key);
      var r :| r in own && InScope(filter, r) && !r.state.Verified?;
      ScopedMember(requirements, filter, key, r);
    }
    if r :| r in Scoped(requirements, filter)(key) && filter.MatchesState(r.state) && !r.state.Verified? {
      ScopedMember(requirements, filter, key, r);
      RequirementHasGap(filter, own, scenarioCount, scoring, key);
    }
  }

  /**
   * Under a state or gap-kind filter, with or without a category and without a priority filter, a row the other
   * filters pick survives with none of its gaps exactly when everything that matches in it is verified.
   */
  lemma RowWithoutGap(filter: ViewFilter, requirements: seq<Requirement>, scenarioCount: nat, scoring: Scoring, row: Row)
    requires filter.StateFilterActive() && filter.priorities == [] && filter.category != Some(Unclassified)
    requires filter.picks(row.verb, row.path)
    requires UncoveredWithoutScenarios(OfKey(requirements, OperationOf, row.operationKey), scenarioCount)
    ensures var matching := Filter(Scoped(requirements, filter)(row.operationKey), Matches(filter));
            var survives := RowKept(filter, row, Scoped(requirements, filter)(row.operationKey));
            var someGap := SomeGapMatches(filter, OperationGaps(requirements, scenarioCount, scoring, row.operationKey));
            && (someGap ==> survives)
            && (survives && !someGap <==> matching != [] && forall r :: r in matching ==> r.state.Verified?)
  {
    var scoped := Scoped(requirements, filter)(row.operationKey);
    var matching := Filter(scoped, Matches(filter));
    GapMatchesIffRequirement(filter, requirements, scenarioCount, scoring, row.operationKey);
    assert forall r :: r in matching <==> r in scoped && Matches(filter)(r);
    HasMember(matching);
  }

  /** A view of the verified requirements keeps a row that has no gap at all. */
  lemma VerifiedRowHasNoGap(scoring: Scoring)
    ensures var r := Requirement("r", "GET /a", "page", Parameter, Positive, Verified, None);
            var filter := ViewFilter((verb: string, path: string) => true, [Verified], None, None, []);
            var row := Row("GET /a", "GET", "/a", Low, FiguresOf([r], []), None);
            RowKept(filter, row, Scoped([r], filter)("GET /a")) && OperationGaps([r], 1, scoring, "GET /a") == []
  {
    var r := Requirement("r", "GET /a", "page", Parameter, Positive, Verified, None);
    var filter := ViewFilter((verb: string, path: string) => true, [Verified], None, None, []);
    var row := Row("GET /a", "GET", "/a", Low, FiguresOf([r], []), None);
    VerifiedAlone(filter, row, r, scoring, "GET /a");
  }

  lemma VerifiedAlone(filter: ViewFilter, row: Row, r: Requirement, scoring: Scoring, key: string)
    requires r.operationKey == key && r.state.Verified?
    requires filter.picks(row.verb, row.path) && filter.states == [Verified] && filter.gapKind.None? && filter.category.None? && filter.priorities == []
    ensures RowKept(filter, row, Scoped([r], filter)(key)) && OperationGaps([r], 1, scoring, key) == []
  {
    assert OperationOf(r) == key && filter.MatchesState(r.state) && !IsUnverified(r);
    assert HasKey(OperationOf, key)(r) && Matches(filter)(r);
    forall x | x in [r] ensures HasKey(OperationOf, key)(x) && Matches(filter)(x) && !IsUnverified(x) { assert x == r; }
    FilterAll([r], HasKey(OperationOf, key));
    FilterAll([r], Matches(filter));
    FilterNone([r], IsUnverified);
  }

  /** Under a filter no verified requirement matches, a row survives if and only if at least one of its gaps does. */
  lemma RowSurvivesWithItsGaps(filter: ViewFilter, requirements: seq<Requirement>, scenarioCount: nat, scoring: Scoring, row: Row)
    requires filter.StateFilterActive() && filter.priorities == [] && filter.category != Some(Unclassified)
    requires filter.picks(row.verb, row.path) && !filter.MatchesState(Verified)
    requires UncoveredWithoutScenarios(OfKey(requirements, OperationOf, row.operationKey), scenarioCount)
    ensures RowKept(filter, row, Scoped(requirements, filter)(row.operationKey)) <==>
            SomeGapMatches(filter, OperationGaps(requirements, scenarioCount, scoring, row.operationKey))
  {
    RowWithoutGap(filter, requirements, scenarioCount, scoring, row);
    var matching := Filter(Scoped(requirements, filter)(row.operationKey), Matches(filter));
    if matching != [] { assert matching[0] in matching; }
  }

  /** A snapshot whose gaps are those `buildViews` makes of its requirements. */
  ghost predicate HasBuiltGaps(s: Snapshot, scenarioCountOf: string -> nat, scoring: Scoring) {
    && s.gaps == SortBy(FlatMap(Map(s.operations, RowKey), GapsOfEach(s.requirements, scenarioCountOf, scoring)), scoring.gapLe)
    && forall row :: row in s.operations ==>
         UncoveredWithoutScenarios(OfKey(s.requirements, OperationOf, row.operationKey), scenarioCountOf(row.operationKey))
  }

  lemma GapBelongsToOperation(requirements: seq<Requirement>, scenarioCount: nat, scoring: Scoring, key: string, g: Gap)
    requires g in OperationGaps(requirements, scenarioCount, scoring, key)
    ensures g.operationKey == key
  {
    var own := OfKey(requirements, OperationOf, key);
    MappedDraft(Drafts(key, own, scenarioCount), scoring, g);
    var d :| d in Drafts(key, own, scenarioCount) && g == GapOf(scoring, d);
    GapsAreNotEmpty(key, own, scenarioCount, d);
  }

  /** The gaps of a snapshot with a given operation are that operation's gaps. */
  lemma GapsOfOperation(s: Snapshot, scenarioCountOf: string -> nat, scoring: Scoring, row: Row, g: Gap)
    requires HasBuiltGaps(s, scenarioCountOf, scoring) && row in s.operations
    ensures g in s.gaps && g.operationKey == row.operationKey <==>
            g in OperationGaps(s.requirements, scenarioCountOf(row.operationKey), scoring, row.operationKey)
  {
    var keys, each := Map(s.operations, RowKey), GapsOfEach(s.requirements, scenarioCountOf, scoring);
    SortByMembers(FlatMap(keys, each), scoring.gapLe);
    FlatMapMember(keys, each, g);
    if g in s.gaps && g.operationKey == row.operationKey {
      var i :| 0 <= i < |keys| && g in each(keys[i]);
      GapBelongsToOperation(s.requirements, scenarioCountOf(keys[i]), scoring, keys[i], g);
    }
    if g in OperationGaps(s.requirements, scenarioCountOf(row.operationKey), scoring, row.operationKey) {
      GapBelongsToOperation(s.requirements, scenarioCountOf(row.operationKey), scoring, row.operationKey, g);
      var i :| 0 <= i < |s.operations| && s.operations[i] == row;
      assert keys[i] == row.operationKey && g in each(keys[i]);
    }
  }

  lemma RowResultKey(s: Snapshot, filter: ViewFilter, row: Row)
    ensures forall r :: r in RowResult(s, filter)(row) ==> r.operationKey == row.operationKey
    ensures |RowResult(s, filter)(row)| == if RowKept(filter, row, Scoped(s.requirements, filter)(row.operationKey)) then 1 else 0
  {
    var result := RowResult(s, filter)(row);
    var scoped := Scoped(s.requirements, filter)(row.operationKey);
    var kept := RowOf(filter, row, scoped, ScopedScenarios(s.scenarios, filter)(row.operationKey));
    assert kept.operationKey == row.operationKey;
    assert result == [] || result == [kept];
    forall r | r in result ensures r.operationKey == row.operationKey { assert r == result[0]; }
  }

  ghost predicate SomeRowKept(s: Snapshot, filter: ViewFilter, key: string) {
    exists row :: row in s.operations && row.operationKey == key && RowKept(filter, row, Scoped(s.requirements, filter)(key))
  }

  lemma KeptKey(s: Snapshot, filter: ViewFilter, rowLe: (Row, Row) -> bool, key: string)
    ensures key in KeysOf(KeptRows(s, filter, rowLe)) <==> SomeRowKept(s, filter, key)
  {
    SortByMembers(FlatMap(s.operations, RowResult(s, filter)), rowLe);
    if key in KeysOf(KeptRows(s, filter, rowLe)) {
      var r :| r in KeptRows(s, filter, rowLe) && r.operationKey == key;
      FlatMapMember(s.operations, RowResult(s, filter), r);
      var i :| 0 <= i < |s.operations| && r in RowResult(s, filter)(s.operations[i]);
      RowResultKey(s, filter, s.operations[i]);
      assert s.operations[i] in s.operations;
    }
    if SomeRowKept(s, filter, key) {
      var row :| row in s.operations && row.operationKey == key && RowKept(filter, row, Scoped(s.requirements, filter)(key));
      RowResultKey(s, filter, row);
      var r := RowResult(s, filter)(row)[0];
      assert r in RowResult(s, filter)(row);
      FlatMapMember(s.operations, RowResult(s, filter), r);
      assert r in KeptRows(s, filter, rowLe);
    }
  }

  /**
   * In the view of a whole snapshot under a state or gap-kind filter that no verified requirement matches, with or
   * without a category and without a priority filter, an operation's row is kept if and only if a gap of it is kept.
   */
  lemma RowsAndGapsSurviveTogether(
    s: Snapshot, filter: ViewFilter, order: ViewOrder, scenarioCountOf: string -> nat, scoring: Scoring, row: Row)
    requires HasBuiltGaps(s, scenarioCountOf, scoring) && row in s.operations
    requires forall other :: other in s.operations && other.operationKey == row.operationKey ==> other == row
    requires filter.StateFilterActive() && filter.priorities == [] && filter.category != Some(Unclassified)
    requires filter.picks(row.verb, row.path) && !filter.MatchesState(Verified)
    ensures var view := Filtered(s, filter, order);
            row.operationKey in KeysOf(view.operations) <==> exists g :: g in view.gaps && g.operationKey == row.operationKey
  {
    var key, view := row.operationKey, Filtered(s, filter, order);
    var keys := KeysOf(view.operations);
    KeptKey(s, filter, order.rowLe, key);
    RowSurvivesWithItsGaps(filter, s.requirements, scenarioCountOf(key), scoring, row);
    if key in keys {
      var g :| g in OperationGaps(s.requirements, scenarioCountOf(key), scoring, key) && GapMatches(filter, g);
      GapsOfOperation(s, scenarioCountOf, scoring, row, g);
      assert GapKept(filter, keys)(g);
    }
    if g :| g in view.gaps && g.operationKey == key {
      assert GapKept(filter, keys)(g);
    }
  }

  /** The gap-kind filters never match a verified requirement, and their families split the other states. */
  lemma FamiliesSplitStates(s: State)
    ensures s.Verified? ==> forall k :: !InFamily(k, s)
    ensures !s.Verified? ==> exists k :: InFamily(k, s) && forall j :: InFamily(j, s) ==> j == k
  {
    if !s.Verified? {
      var k := if s.NotCovered? || s.GeneratedNotExecuted? then Missing else if s.ExecutedFailed? then FailedKind
               else if s.Inconclusive? then Insufficient else StaleKind;
      assert InFamily(k, s);
    }
  }
}
