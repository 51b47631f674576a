/** The sections of a filtered view agree: the cards say what the rows and the lists below them add up to. */
module CoverageTotals {
  import opened CoverageClassification
  import opened CoverageGaps
  import opened CoverageFilter
  import opened CoverageRefiltering
  import opened Sequences
  import opened Ordering

  /** Every row shows the figures of its own requirements and scenarios. */
  ghost predicate ShowTheirOwn(s: Snapshot, filter: ViewFilter, rows: seq<Row>) {
    forall r :: r in rows ==> r.figures == FiguresOf(RowRequirements(s, filter)(r), RowScenarios(s, filter)(r))
  }

  lemma ResultShowsItsOwn(s: Snapshot, filter: ViewFilter, row: Row, r: Row)
    requires RowResult(s, filter)(row) == [r]
    ensures r.figures == FiguresOf(RowRequirements(s, filter)(r), RowScenarios(s, filter)(r))
  {
    var result := RowResult(s, filter)(row);
    var scoped, scenarios := Scoped(s.requirements, filter)(row.operationKey), ScopedScenarios(s.scenarios, filter)(row.operationKey);
    assert result == [] || result == [RowOf(filter, row, scoped, scenarios)];
    assert result[0] == r;
    RowOfShows(filter, row, scoped, scenarios);
  }

  lemma RowOfShows(filter: ViewFilter, row: Row, scoped: seq<Requirement>, scenarios: seq<Scenario>)
    ensures var r := RowOf(filter, row, scoped, scenarios);
            r.operationKey == row.operationKey && r.figures == FiguresOf(scoped, scenarios)
  {
  }

  lemma ViewRowsShowTheirOwn(s: Snapshot, filter: ViewFilter, rowLe: (Row, Row) -> bool)
    ensures ShowTheirOwn(s, filter, KeptRows(s, filter, rowLe))
  {
    SortByMembers(FlatMap(s.operations, RowResult(s, filter)), rowLe);
    forall r | r in KeptRows(s, filter, rowLe)
      ensures r.figures == FiguresOf(RowRequirements(s, filter)(r), RowScenarios(s, filter)(r))
    {
      ViewRowOrigin(s, filter, s.operations, r);
      var row :| row in s.operations && RowResult(s, filter)(row) == [r];
      ResultShowsItsOwn(s, filter, row, r);
    }
  }

  lemma {:induction false} SumAppend(a: seq<Scenario>, b: seq<Scenario>, count: Scenario -> nat)
    ensures Sum(a + b, count) == Sum(a, count) + Sum(b, count)
  {
    if b == [] {
      assert a + b == a;
    } else {
      assert (a + b)[..|a + b| - 1] == a + b[..|b| - 1];
      SumAppend(a, b[..|b| - 1], count);
    }
  }

  lemma FlatMapLast<T, U>(rows: seq<T>, f: T -> seq<U>)
    requires rows != []
    ensures FlatMap(rows, f) == FlatMap(rows[..|rows| - 1], f) + f(rows[|rows| - 1])
  {
    FlatMapPush(rows, |rows| - 1, f);
    assert rows[..|rows|] == rows;
  }

  /** What rows show of their scenarios sums to what the scenarios in the list hold. */
  lemma {:induction false} ScenarioTotals(s: Snapshot, filter: ViewFilter, rows: seq<Row>, shown: Row -> nat, count: Scenario -> nat)
    requires forall r :: r in rows ==> shown(r) == Sum(RowScenarios(s, filter)(r), count)
    ensures TotalOf(rows, shown) == Sum(FlatMap(rows, RowScenarios(s, filter)), count)
  {
    if rows != [] {
      var init := rows[..|rows| - 1];
      ScenarioTotals(s, filter, init, shown, count);
      FlatMapLast(rows, RowScenarios(s, filter));
      SumAppend(FlatMap(init, RowScenarios(s, filter)), RowScenarios(s, filter)(rows[|rows| - 1]), count);
    }
  }

  /** What rows count among their requirements sums to what is counted in the list of requirements. */
  lemma {:induction false} RequirementTotals(
    s: Snapshot, filter: ViewFilter, rows: seq<Row>, shown: Row -> nat, counts: Requirement -> bool)
    requires forall r :: r in rows ==> shown(r) == |Filter(RowRequirements(s, filter)(r), counts)|
    ensures TotalOf(rows, shown) == |Filter(FlatMap(rows, RowRequirements(s, filter)), counts)|
  {
    if rows != [] {
      var init := rows[..|rows| - 1];
      RequirementTotals(s, filter, init, shown, counts);
      FlatMapLast(rows, RowRequirements(s, filter));
      FilterAppend(FlatMap(init, RowRequirements(s, filter)), RowRequirements(s, filter)(rows[|rows| - 1]), counts);
    }
  }

  /** The assertion card holds the assertions of exactly the scenarios listed, whatever the filter. */
  lemma AssertionCardAgrees(s: Snapshot, filter: ViewFilter, order: ViewOrder)
    ensures var view := Filtered(s, filter, order);
            view.assertionOutcomes == AssertionOutcomes(
              Sum(view.scenarios, PassedIn), Sum(view.scenarios, FailedIn), Sum(view.scenarios, NotEvaluatedIn))
  {
    var rows := KeptRows(s, filter, order.rowLe);
    ViewRowsShowTheirOwn(s, filter, order.rowLe);
    ScenarioTotals(s, filter, rows, (r: Row) => r.figures.passed, PassedIn);
    ScenarioTotals(s, filter, rows, (r: Row) => r.figures.failed, FailedIn);
    ScenarioTotals(s, filter, rows, (r: Row) => r.figures.notEvaluated, NotEvaluatedIn);
  }

  predicate CoveredInFraction(r: Requirement) {
    InFraction(r) && IsCovered(r)
  }

  predicate VerifiedInFraction(r: Requirement) {
    InFraction(r) && IsVerified(r)
  }

  /** The fractions of the rows add up to the fraction of the requirements listed. */
  lemma FractionsAgree(s: Snapshot, filter: ViewFilter, order: ViewOrder)
    ensures var view := Filtered(s, filter, order);
            && TotalOf(view.operations, (r: Row) => r.figures.total) == |Filter(view.requirements, InFraction)|
            && TotalOf(view.operations, (r: Row) => r.figures.covered) == |Filter(view.requirements, CoveredInFraction)|
            && TotalOf(view.operations, (r: Row) => r.figures.verified) == |Filter(view.requirements, VerifiedInFraction)|
  {
    var rows := KeptRows(s, filter, order.rowLe);
    ViewRowsShowTheirOwn(s, filter, order.rowLe);
    forall r | r in rows
      ensures r.figures.covered == |Filter(RowRequirements(s, filter)(r), CoveredInFraction)|
      ensures r.figures.verified == |Filter(RowRequirements(s, filter)(r), VerifiedInFraction)|
    {
      FilterTwice(RowRequirements(s, filter)(r), InFraction, IsCovered, CoveredInFraction);
      FilterTwice(RowRequirements(s, filter)(r), InFraction, IsVerified, VerifiedInFraction);
    }
    RequirementTotals(s, filter, rows, (r: Row) => r.figures.total, InFraction);
    RequirementTotals(s, filter, rows, (r: Row) => r.figures.covered, CoveredInFraction);
    RequirementTotals(s, filter, rows, (r: Row) => r.figures.verified, VerifiedInFraction);
  }
}
