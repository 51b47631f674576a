/** Filtering a filtered snapshot again (backend/src/apiCoverage/filterSnapshot.ts). */
module CoverageRefiltering {
  import opened CoverageClassification
  import opened CoverageGaps
  import opened CoverageFilter
  import opened Sequences
  import opened Ordering

  ghost predicate OneRowPerOperation(rows: seq<Row>) {
    Distinct(Map(rows, RowKey))
  }

  lemma {:induction false} KeptKeys(s: Snapshot, filter: ViewFilter, rows: seq<Row>)
    requires OneRowPerOperation(rows)
    ensures OneRowPerOperation(FlatMap(rows, RowResult(s, filter)))
    ensures forall k :: k in Map(FlatMap(rows, RowResult(s, filter)), RowKey) ==> k in Map(rows, RowKey)
  {
    if rows != [] {
      assert Map(rows, RowKey) == [rows[0].operationKey] + Map(rows[1..], RowKey);
      assert Distinct(Map(rows[1..], RowKey)) && rows[0].operationKey !in Map(rows[1..], RowKey) by {
        assert forall i :: 0 <= i < |rows| - 1 ==> Map(rows[1..], RowKey)[i] == Map(rows, RowKey)[i + 1];
      }
      KeptKeys(s, filter, rows[1..]);
      RowResultKey(s, filter, rows[0]);
      var first, rest := RowResult(s, filter)(rows[0]), FlatMap(rows[1..], RowResult(s, filter));
      MapAppend(first, rest, RowKey);
      if first != [] {
        assert first == [first[0]] && first[0] in first;
        assert Map(first, RowKey) == [rows[0].operationKey];
      } else {
        assert Map(first, RowKey) + Map(rest, RowKey) == Map(rest, RowKey);
      }
    }
  }

  lemma ViewRowOrigin(s: Snapshot, filter: ViewFilter, rows: seq<Row>, r: Row)
    requires r in FlatMap(rows, RowResult(s, filter))
    ensures exists row :: row in rows && RowResult(s, filter)(row) == [r]
  {
    FlatMapMember(rows, RowResult(s, filter), r);
    var i :| 0 <= i < |rows| && r in RowResult(s, filter)(rows[i]);
    RowResultKey(s, filter, rows[i]);
    assert RowResult(s, filter)(rows[i]) == [r] && rows[i] in rows;
  }

  /** The rows of a view: one per operation, sorted, each the result of a row of the snapshot. */
  lemma ViewRows(s: Snapshot, filter: ViewFilter, rowLe: (Row, Row) -> bool)
    requires OneRowPerOperation(s.operations) && TotalPreorder(rowLe)
    ensures OneRowPerOperation(KeptRows(s, filter, rowLe)) && Sorted(KeptRows(s, filter, rowLe), rowLe)
    ensures forall r :: r in KeptRows(s, filter, rowLe) ==> exists row :: row in s.operations && RowResult(s, filter)(row) == [r]
  {
    var unsorted := FlatMap(s.operations, RowResult(s, filter));
    SortingRows(unsorted, rowLe);
    KeptKeys(s, filter, s.operations);
    DistinctPermutation(Map(unsorted, RowKey), Map(KeptRows(s, filter, rowLe), RowKey));
    forall r | r in KeptRows(s, filter, rowLe) ensures exists row :: row in s.operations && RowResult(s, filter)(row) == [r] {
      ViewRowOrigin(s, filter, s.operations, r);
    }
  }

  lemma SortingRows(rows: seq<Row>, rowLe: (Row, Row) -> bool)
    requires TotalPreorder(rowLe)
    ensures Sorted(SortBy(rows, rowLe), rowLe) && multiset(Map(SortBy(rows, rowLe), RowKey)) == multiset(Map(rows, RowKey))
    ensures forall r :: r in SortBy(rows, rowLe) <==> r in rows
  {
    SortBySorted(rows, rowLe);
    SortByPermutes(rows, rowLe);
    SortByMembers(rows, rowLe);
    MapPermutation(rows, SortBy(rows, rowLe), RowKey);
  }

  lemma ScopedInGroup(requirements: seq<Requirement>, filter: ViewFilter, key: string)
    ensures forall r :: r in Scoped(requirements, filter)(key) ==>
              r.operationKey == key && (filter.category.Some? ==> r.group == filter.category.value)
  {
    var all := OfKey(requirements, OperationOf, key);
    forall r | r in Scoped(requirements, filter)(key)
      ensures r.operationKey == key && (filter.category.Some? ==> r.group == filter.category.value)
    {
      assert r in all && HasKey(OperationOf, key)(r);
      if filter.category.Some? { assert InGroup(filter.category.value)(r); }
    }
  }

  lemma ScopedScenariosInGroup(scenarios: seq<Scenario>, filter: ViewFilter, key: string)
    ensures forall x :: x in ScopedScenarios(scenarios, filter)(key) ==>
              x.operationKey == key && (filter.category.Some? ==> x.group == filter.category.value)
  {
    var all := OfKey(scenarios, ScenarioOperation, key);
    forall x | x in ScopedScenarios(scenarios, filter)(key)
      ensures x.operationKey == key && (filter.category.Some? ==> x.group == filter.category.value)
    {
      assert x in all && HasKey(ScenarioOperation, key)(x);
      if filter.category.Some? { assert ScenarioInGroup(filter.category.value)(x); }
    }
  }

  /** What a kept row is computed from is the same in the view as in the snapshot. */
  lemma ScopedAgain(s: Snapshot, filter: ViewFilter, rows: seq<Row>, key: string)
    requires OneRowPerOperation(rows) && key in Map(rows, RowKey)
    ensures Scoped(FlatMap(rows, RowRequirements(s, filter)), filter)(key) == Scoped(s.requirements, filter)(key)
  {
    forall r, x | r in rows && x in RowRequirements(s, filter)(r) ensures OperationOf(x) == RowKey(r) {
      ScopedInGroup(s.requirements, filter, r.operationKey);
    }
    OfKeyOfGroups(rows, RowKey, Scoped(s.requirements, filter), RowRequirements(s, filter), OperationOf, key);
    ScopedInGroup(s.requirements, filter, key);
    if filter.category.Some? { FilterAll(Scoped(s.requirements, filter)(key), InGroup(filter.category.value)); }
  }

  lemma ScopedScenariosAgain(s: Snapshot, filter: ViewFilter, rows: seq<Row>, key: string)
    requires OneRowPerOperation(rows) && key in Map(rows, RowKey)
    ensures ScopedScenarios(FlatMap(rows, RowScenarios(s, filter)), filter)(key) == ScopedScenarios(s.scenarios, filter)(key)
  {
    forall r, x | r in rows && x in RowScenarios(s, filter)(r) ensures ScenarioOperation(x) == RowKey(r) {
      ScopedScenariosInGroup(s.scenarios, filter, r.operationKey);
    }
    OfKeyOfGroups(rows, RowKey, ScopedScenarios(s.scenarios, filter), RowScenarios(s, filter), ScenarioOperation, key);
    ScopedScenariosInGroup(s.scenarios, filter, key);
    if filter.category.Some? { FilterAll(ScopedScenarios(s.scenarios, filter)(key), ScenarioInGroup(filter.category.value)); }
  }

  /** A row computed from the same requirements and scenarios again stays as it is. */
  lemma RowAgain(filter: ViewFilter, original: Row, row: Row, scoped: seq<Requirement>, scenarios: seq<Scenario>)
    requires RowKept(filter, original, scoped) && row == RowOf(filter, original, scoped, scenarios)
    ensures RowKept(filter, row, scoped) && RowOf(filter, row, scoped, scenarios) == row && row.operationKey == original.operationKey
  {
  }

  lemma RowsAgain(s: Snapshot, filter: ViewFilter, order: ViewOrder)
    requires OneRowPerOperation(s.operations) && TotalPreorder(order.rowLe)
    ensures KeptRows(Filtered(s, filter, order), filter, order.rowLe) == KeptRows(s, filter, order.rowLe)
  {
    var rows, view := KeptRows(s, filter, order.rowLe), Filtered(s, filter, order);
    ViewRows(s, filter, order.rowLe);
    forall r | r in rows ensures RowResult(view, filter)(r) == [r] {
      var original :| original in s.operations && RowResult(s, filter)(original) == [r];
      var i :| 0 <= i < |rows| && rows[i] == r;
      assert Map(rows, RowKey)[i] == r.operationKey;
      RowResultKey(s, filter, original);
      assert [r][0] == r && r in [r];
      ScopedAgain(s, filter, rows, r.operationKey);
      ScopedScenariosAgain(s, filter, rows, r.operationKey);
      RowAgain(filter, original, r, Scoped(s.requirements, filter)(r.operationKey), ScopedScenarios(s.scenarios, filter)(r.operationKey));
    }
    FlatMapSingletons(rows, RowResult(view, filter));
    SortByFixed(rows, order.rowLe);
  }

  /**
   * Filtering a view again with the same filter changes nothing in its rows, requirements, scenarios, gaps, counts and
   * metrics. The category section and the unclassified list are recomputed from the requirements the view was left with.
   */
  lemma RefilteringKeepsRowsAndGaps(s: Snapshot, filter: ViewFilter, order: ViewOrder)
    requires OneRowPerOperation(s.operations) && TotalPreorder(order.rowLe)
    ensures var view := Filtered(s, filter, order);
            var again := Filtered(view, filter, order);
            && again.operations == view.operations && again.requirements == view.requirements
            && again.scenarios == view.scenarios && again.gaps == view.gaps
            && again.operationCounts == view.operationCounts && again.assertionOutcomes == view.assertionOutcomes
            && again.metrics == view.metrics
            && again.categories == Categories(view.requirements)
            && again.unclassified == UnclassifiedFor(view.requirements, view.unclassified.scenarios, order.le)
  {
    var view, rows := Filtered(s, filter, order), KeptRows(s, filter, order.rowLe);
    var keys := KeysOf(rows);
    RowsAgain(s, filter, order);
    ViewRows(s, filter, order.rowLe);
    forall r | r in rows
      ensures RowRequirements(view, filter)(r) == RowRequirements(s, filter)(r)
      ensures RowScenarios(view, filter)(r) == RowScenarios(s, filter)(r)
    {
      ScopedAgain(s, filter, rows, r.operationKey);
      ScopedScenariosAgain(s, filter, rows, r.operationKey);
    }
    FlatMapSame(rows, RowRequirements(view, filter), RowRequirements(s, filter));
    FlatMapSame(rows, RowScenarios(view, filter), RowScenarios(s, filter));
    FilterAll(view.gaps, GapKept(filter, keys));
    AllKept(s, filter, rows);
    FilterAll(view.requirements, OfKept(keys));
  }

  lemma AllKept(s: Snapshot, filter: ViewFilter, rows: seq<Row>)
    ensures forall r :: r in FlatMap(rows, RowRequirements(s, filter)) ==> r.operationKey in KeysOf(rows)
  {
    forall r | r in FlatMap(rows, RowRequirements(s, filter)) ensures r.operationKey in KeysOf(rows) {
      FlatMapMember(rows, RowRequirements(s, filter), r);
      var i :| 0 <= i < |rows| && r in RowRequirements(s, filter)(rows[i]);
      ScopedInGroup(s.requirements, filter, rows[i].operationKey);
      assert rows[i] in rows;
    }
  }

  // ---- The category section ----

  /** The requirements of the kept operations, restricted to the category when there is one. */
  function Restricted(requirements: seq<Requirement>, filter: ViewFilter): seq<Requirement> {
    if filter.category.Some? then Filter(requirements, InGroup(filter.category.value)) else requirements
  }

  lemma ScopedOfKept(requirements: seq<Requirement>, filter: ViewFilter, keys: set<string>, key: string)
    requires key in keys
    ensures OfKey(Restricted(Filter(requirements, OfKept(keys)), filter), OperationOf, key) == Scoped(requirements, filter)(key)
  {
    var kept := Filter(requirements, OfKept(keys));
    FilterTwice(requirements, OfKept(keys), HasKey(OperationOf, key), HasKey(OperationOf, key));
    if filter.category.Some? {
      var g := InGroup(filter.category.value);
      var both := (r: Requirement) => r.operationKey == key && r.group == filter.category.value;
      FilterTwice(kept, g, HasKey(OperationOf, key), both);
      FilterTwice(kept, HasKey(OperationOf, key), g, both);
    }
  }

  lemma {:induction false} FlattenIsFlatMap<R, K, T>(rows: seq<R>, rowKey: R -> K, g: K -> seq<T>, f: R -> seq<T>)
    requires forall r :: r in rows ==> f(r) == g(rowKey(r))
    ensures Flatten(Map(Map(rows, rowKey), g)) == FlatMap(rows, f)
  {
    if rows != [] { FlattenIsFlatMap(rows[1..], rowKey, g, f); }
  }

  /** The requirements of a view are those of its operations in the category, whatever the order. */
  lemma ViewRequirements(s: Snapshot, filter: ViewFilter, rows: seq<Row>)
    requires OneRowPerOperation(rows)
    ensures multiset(FlatMap(rows, RowRequirements(s, filter)))
         == multiset(Restricted(Filter(s.requirements, OfKept(KeysOf(rows))), filter))
  {
    var keys := KeysOf(rows);
    var items := Restricted(Filter(s.requirements, OfKept(keys)), filter);
    forall x | x in items ensures OperationOf(x) in Map(rows, RowKey) {
      assert OfKept(keys)(x);
      var r :| r in rows && r.operationKey == x.operationKey;
    }
    GroupsPartition(items, OperationOf, Map(rows, RowKey));
    forall r | r in rows ensures RowRequirements(s, filter)(r) == OfKey(items, OperationOf, RowKey(r)) {
      ScopedOfKept(s.requirements, filter, keys, r.operationKey);
    }
    FlattenIsFlatMap(rows, RowKey, k => OfKey(items, OperationOf, k), RowRequirements(s, filter));
  }

  lemma CategoryIgnoresOrder(a: seq<Requirement>, b: seq<Requirement>, g: Group)
    requires multiset(a) == multiset(b)
    ensures CategoryOf(a, g) == CategoryOf(b, g)
  {
    var p, q := Filter(a, InGroup(g)), Filter(b, InGroup(g));
    FilterPermutation(a, b, InGroup(g));
    FilterPermutation(p, q, IsCovered);
    MapPermutation(p, q, StateOf);
    assert |multiset(p)| == |multiset(q)|;
    assert |multiset(Filter(p, IsCovered))| == |multiset(Filter(q, IsCovered))|;
  }

  /** With a category filter, every requirement is in that category. */
  ghost predicate OnlyCategory(requirements: seq<Requirement>, filter: ViewFilter) {
    filter.category.Some? ==> forall r :: r in requirements ==> r.group == filter.category.value
  }

  /** The other classified categories are empty. */
  ghost predicate NoOtherCategory(requirements: seq<Requirement>, filter: ViewFilter) {
    filter.category.Some? ==> forall r :: r in requirements ==> r.group == filter.category.value || r.group.Unclassified?
  }

  lemma CategoryAfterRestriction(requirements: seq<Requirement>, c: Group, g: Group)
    ensures g == c ==> CategoryOf(Filter(requirements, InGroup(c)), g) == CategoryOf(requirements, g)
    ensures g != c ==> (CategoryOf(Filter(requirements, InGroup(c)), g) == CategoryOf(requirements, g) <==>
                        forall r :: r in requirements ==> r.group != g)
  {
    var restricted, inGroup := Filter(requirements, InGroup(c)), Filter(requirements, InGroup(g));
    if g == c {
      FilterAll(restricted, InGroup(g));
    } else {
      FilterNone(restricted, InGroup(g));
      HasMember(inGroup);
      if forall r :: r in requirements ==> r.group != g { FilterNone(requirements, InGroup(g)); }
      assert forall r :: r in inGroup <==> r in requirements && InGroup(g)(r);
    }
  }

  lemma CategoriesAfterRestriction(requirements: seq<Requirement>, filter: ViewFilter)
    requires filter.category != Some(Unclassified)
    ensures Categories(Restricted(requirements, filter)) == Categories(requirements) <==> NoOtherCategory(requirements, filter)
  {
    if filter.category.Some? {
      var c := filter.category.value;
      CategoryAfterRestriction(requirements, c, Positive);
      CategoryAfterRestriction(requirements, c, Negative);
      CategoryAfterRestriction(requirements, c, Boundary);
    }
  }

  lemma SameCategories(a: seq<Requirement>, b: seq<Requirement>)
    requires multiset(a) == multiset(b)
    ensures Categories(a) == Categories(b)
  {
    CategoryIgnoresOrder(a, b, Positive);
    CategoryIgnoresOrder(a, b, Negative);
    CategoryIgnoresOrder(a, b, Boundary);
  }

  // ---- The unclassified list ----

  lemma NamedTransitive(le: (string, string) -> bool, a: Named, b: Named, c: Named)
    requires TotalPreorder(le) && Antisymmetric(le)
    requires ByOperationAndLabel(le)(a, b) && ByOperationAndLabel(le)(b, c)
    ensures ByOperationAndLabel(le)(a, c)
  {
    assert le(a.operationKey, b.operationKey) && le(b.operationKey, c.operationKey);
  }

  lemma NamedOrder(le: (string, string) -> bool)
    requires TotalPreorder(le) && Antisymmetric(le)
    ensures TotalPreorder(ByOperationAndLabel(le))
  {
    var order := ByOperationAndLabel(le);
    forall a, b ensures order(a, b) || order(b, a) {
      assert le(a.operationKey, b.operationKey) || le(b.operationKey, a.operationKey);
      assert le(a.name, b.name) || le(b.name, a.name);
    }
    forall a, b, c | order(a, b) && order(b, c) ensures order(a, c) { NamedTransitive(le, a, b, c); }
  }

  lemma NamedNoTies(le: (string, string) -> bool, names: seq<Named>)
    requires TotalPreorder(le) && Antisymmetric(le)
    ensures NoTies(names, ByOperationAndLabel(le))
  {
    var order := ByOperationAndLabel(le);
    forall a, b | a in names && b in names && order(a, b) && order(b, a) ensures a == b {
      assert le(a.operationKey, b.operationKey) && le(b.operationKey, a.operationKey);
      assert le(a.name, b.name) && le(b.name, a.name);
    }
  }

  lemma SameUnclassified(a: seq<Requirement>, b: seq<Requirement>, scenarios: nat, le: (string, string) -> bool)
    requires multiset(a) == multiset(b) && TotalPreorder(le) && Antisymmetric(le)
    ensures UnclassifiedFor(a, scenarios, le) == UnclassifiedFor(b, scenarios, le)
  {
    var p, q := Filter(a, InGroup(Unclassified)), Filter(b, InGroup(Unclassified));
    FilterPermutation(a, b, InGroup(Unclassified));
    MapPermutation(p, q, NamedOf);
    NamedOrder(le);
    NamedNoTies(le, Map(p, NamedOf));
    SortByPermutation(Map(p, NamedOf), Map(q, NamedOf), ByOperationAndLabel(le));
  }

  lemma UnclassifiedCount(requirements: seq<Requirement>, scenarios: nat, le: (string, string) -> bool)
    ensures |UnclassifiedFor(requirements, scenarios, le).requirements| == |Filter(requirements, InGroup(Unclassified))|
  {
    var names := Map(Filter(requirements, InGroup(Unclassified)), NamedOf);
    SortByPermutes(names, ByOperationAndLabel(le));
    assert |multiset(names)| == |multiset(SortBy(names, ByOperationAndLabel(le)))|;
  }

  lemma UnclassifiedAfterRestriction(requirements: seq<Requirement>, filter: ViewFilter, scenarios: nat, le: (string, string) -> bool)
    requires filter.category.Some? && filter.category != Some(Unclassified)
    ensures UnclassifiedFor(Restricted(requirements, filter), scenarios, le) == UnclassifiedFor(requirements, scenarios, le) <==>
            forall r :: r in requirements ==> !r.group.Unclassified?
  {
    var restricted, unclassified := Restricted(requirements, filter), Filter(requirements, InGroup(Unclassified));
    assert forall r :: r in restricted ==> InGroup(filter.category.value)(r);
    FilterNone(restricted, InGroup(Unclassified));
    UnclassifiedCount(requirements, scenarios, le);
    UnclassifiedCount(restricted, scenarios, le);
    HasMember(unclassified);
    assert forall r :: r in unclassified <==> r in requirements && InGroup(Unclassified)(r);
  }

  /** What a view is left with differs from what its operations have exactly when another category has a requirement. */
  lemma RestrictionIff(requirements: seq<Requirement>, filter: ViewFilter, scenarios: nat, le: (string, string) -> bool)
    requires filter.category != Some(Unclassified)
    ensures && Categories(Restricted(requirements, filter)) == Categories(requirements)
            && UnclassifiedFor(Restricted(requirements, filter), scenarios, le) == UnclassifiedFor(requirements, scenarios, le) <==>
            OnlyCategory(requirements, filter)
  {
    CategoriesAfterRestriction(requirements, filter);
    if filter.category.Some? { UnclassifiedAfterRestriction(requirements, filter, scenarios, le); }
  }

  /**
   * Filtering a view again with the same filter gives the same view if and only if there is no category filter, or
   * every requirement of the kept operations is in that category: the category section and the unclassified list are
   * recomputed from the requirements the view was left with.
   */
  lemma IdempotentIff(s: Snapshot, filter: ViewFilter, order: ViewOrder)
    requires OneRowPerOperation(s.operations) && TotalPreorder(order.rowLe) && filter.category != Some(Unclassified)
    requires TotalPreorder(order.le) && Antisymmetric(order.le)
    ensures var view := Filtered(s, filter, order);
            Filtered(view, filter, order) == view <==>
            OnlyCategory(Filter(s.requirements, OfKept(KeysOf(view.operations))), filter)
  {
    var view, rows := Filtered(s, filter, order), KeptRows(s, filter, order.rowLe);
    var kept, scenarios := Filter(s.requirements, OfKept(KeysOf(rows))), s.unclassified.scenarios;
    RefilteringKeepsRowsAndGaps(s, filter, order);
    ViewRows(s, filter, order.rowLe);
    ViewRequirements(s, filter, rows);
    SameCategories(view.requirements, Restricted(kept, filter));
    SameUnclassified(view.requirements, Restricted(kept, filter), scenarios, order.le);
    RestrictionIff(kept, filter, scenarios, order.le);
  }

  // ---- A view that changes ----

  const PAGE := Requirement("page", "GET /a", "page", Parameter, Positive, Verified, None)

  const FALLBACK := Requirement("default", "GET /a", "default", ResponseCode, Unclassified, NotCovered, None)

  /** One operation with a positive requirement and one in no category. */
  function TwoRequirements(order: ViewOrder): Snapshot {
    var rows, requirements := [Row("GET /a", "GET", "/a", Low, FiguresOf([PAGE, FALLBACK], []), None)], [PAGE, FALLBACK];
    var counts, outcomes := OperationCountsFor(rows), AssertionOutcomesFor(rows);
    Snapshot(rows, requirements, [], [], Categories(requirements), UnclassifiedFor(requirements, 0, order.le),
             counts, outcomes, MetricsFor(requirements, counts, outcomes))
  }

  const POSITIVE_ONLY := ViewFilter((verb: string, path: string) => true, [], None, Some(Positive), [])

  lemma PositiveOnlyKeepsOperation(s: Snapshot, row: Row, rowLe: (Row, Row) -> bool)
    requires s.requirements == [PAGE, FALLBACK] && row in s.operations && row.operationKey == "GET /a"
    ensures "GET /a" in KeysOf(KeptRows(s, POSITIVE_ONLY, rowLe))
  {
    assert OperationOf(PAGE) == "GET /a" && OperationOf(FALLBACK) == "GET /a";
    assert HasKey(OperationOf, "GET /a")(PAGE) && HasKey(OperationOf, "GET /a")(FALLBACK);
    FilterAll(s.requirements, HasKey(OperationOf, "GET /a"));
    var scoped := Scoped(s.requirements, POSITIVE_ONLY)("GET /a");
    assert PAGE in s.requirements && InGroup(Positive)(PAGE) && PAGE in scoped;
    assert RowKept(POSITIVE_ONLY, row, scoped);
    assert SomeRowKept(s, POSITIVE_ONLY, "GET /a");
    KeptKey(s, POSITIVE_ONLY, rowLe, "GET /a");
  }

  lemma PositiveOnlyListsBoth(s: Snapshot, order: ViewOrder)
    requires s.requirements == [PAGE, FALLBACK] && s.unclassified.scenarios == 0
    requires "GET /a" in KeysOf(KeptRows(s, POSITIVE_ONLY, order.rowLe))
    ensures |Filtered(s, POSITIVE_ONLY, order).unclassified.requirements| == 1
  {
    var keys := KeysOf(KeptRows(s, POSITIVE_ONLY, order.rowLe));
    forall x | x in s.requirements ensures OfKept(keys)(x) { assert x == PAGE || x == FALLBACK; }
    FilterAll(s.requirements, OfKept(keys));
    OneUnclassified(order.le);
  }

  /** The view of its positive requirements lists the other one as unclassified; filtered again, it no longer does. */
  lemma CategoryViewLosesUnclassified(order: ViewOrder)
    requires TotalPreorder(order.rowLe)
    ensures var view := Filtered(TwoRequirements(order), POSITIVE_ONLY, order);
            && |view.unclassified.requirements| == 1
            && Filtered(view, POSITIVE_ONLY, order).unclassified.requirements == []
  {
    var s := TwoRequirements(order);
    var view := Filtered(s, POSITIVE_ONLY, order);
    PositiveOnlyKeepsOperation(s, s.operations[0], order.rowLe);
    PositiveOnlyListsBoth(s, order);
    OneRow(s);
    RefilteringKeepsRowsAndGaps(s, POSITIVE_ONLY, order);
    PositiveViewHasNoUnclassified(s, view.operations);
    UnclassifiedCount(view.requirements, view.unclassified.scenarios, order.le);
  }

  lemma OneRow(s: Snapshot)
    requires |s.operations| == 1
    ensures OneRowPerOperation(s.operations)
  {
  }

  lemma OneUnclassified(le: (string, string) -> bool)
    ensures |UnclassifiedFor([PAGE, FALLBACK], 0, le).requirements| == 1
  {
    assert [PAGE, FALLBACK] == [PAGE] + [FALLBACK];
    FilterAppend([PAGE], [FALLBACK], InGroup(Unclassified));
    FilterNone([PAGE], InGroup(Unclassified));
    FilterAll([FALLBACK], InGroup(Unclassified));
    UnclassifiedCount([PAGE, FALLBACK], 0, le);
  }

  lemma PositiveViewHasNoUnclassified(s: Snapshot, rows: seq<Row>)
    ensures Filter(FlatMap(rows, RowRequirements(s, POSITIVE_ONLY)), InGroup(Unclassified)) == []
  {
    var requirements := FlatMap(rows, RowRequirements(s, POSITIVE_ONLY));
    forall r | r in requirements ensures r.group == Positive {
      FlatMapMember(rows, RowRequirements(s, POSITIVE_ONLY), r);
      var i :| 0 <= i < |rows| && r in RowRequirements(s, POSITIVE_ONLY)(rows[i]);
      ScopedInGroup(s.requirements, POSITIVE_ONLY, rows[i].operationKey);
    }
    FilterNone(requirements, InGroup(Unclassified));
  }
}
