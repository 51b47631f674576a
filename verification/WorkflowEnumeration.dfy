/** Which workflows the enumeration returns, and which relationships it reports (assembleWorkflows.ts:88-141). */
module WorkflowEnumeration {
  import opened Sequences
  import opened Ordering
  import opened Relationships
  import opened Graphs
  import opened WorkflowBuilding
  import opened Workflows
  import opened WorkflowOrder

  ghost function Targets(arcs: seq<Arc>): set<Key> {
    set e | e in arcs :: e.1
  }

  /** An operation that takes part in a relationship and consumes from none. */
  ghost predicate IsRoot(rels: seq<Relationship>, k: Key) {
    k in Nodes(Arcs(rels)) - Targets(Arcs(rels))
  }

  /** A path the enumeration turns into a workflow: it starts at a root and cannot be continued within the bound. */
  ghost predicate IsWorkflowPath(rels: seq<Relationship>, maxSteps: nat, p: seq<Relationship>) {
    p != [] && IsRoot(rels, ProducerKey(p[0]))
    && Maximal(rels, ProducerKey(p[0]), {ProducerKey(p[0])}, p, Budget(maxSteps, 1))
  }

  /** `e` would continue a path that already has the full number of operations. */
  ghost predicate CrossesBound(rels: seq<Relationship>, maxSteps: nat, e: Relationship) {
    exists root, q :: IsRoot(rels, root) && StoppedBefore(rels, root, {root}, Budget(maxSteps, 1), q, e)
  }

  // ---- The method ----

  /** The paths emitted from some roots, in order. */
  function FromRoots(rels: seq<Relationship>, le: (string, string) -> bool, roots: seq<Key>, budget: nat): seq<seq<Relationship>> {
    if roots == [] then []
    else FromRoots(rels, le, roots[..|roots| - 1], budget) + Emitted(rels, le, roots[|roots| - 1], [], {roots[|roots| - 1]}, budget)
  }

  function OversizedFromRoots(rels: seq<Relationship>, le: (string, string) -> bool, roots: seq<Key>, budget: nat): seq<Relationship> {
    if roots == [] then []
    else OversizedFromRoots(rels, le, roots[..|roots| - 1], budget) + Oversized(rels, le, roots[|roots| - 1], {roots[|roots| - 1]}, budget)
  }

  ghost predicate Listed(keys: seq<Key>, members: set<Key>) {
    Distinct(keys) && forall k :: k in keys <==> k in members
  }

  lemma AddKeyListed(keys: seq<Key>, members: set<Key>, k: Key)
    requires Listed(keys, members)
    ensures Listed(AddKey(keys, k), members + {k})
  {
  }

  lemma ArcPush(done: seq<Arc>, a: Key, b: Key)
    ensures Nodes(done + [(a, b)]) == Nodes(done) + {a} + {b}
    ensures Targets(done + [(a, b)]) == Targets(done) + {b}
  {
    assert (a, b) in done + [(a, b)];
    forall e | e in done ensures e in done + [(a, b)] {}
    assert (a, b).0 == a && (a, b).1 == b;
  }

  lemma SortedRoots(rels: seq<Relationship>, keys: seq<Key>, incoming: map<Key, int>)
    requires Listed(keys, Nodes(Arcs(rels))) && incoming.Keys == Targets(Arcs(rels))
    ensures var roots := SortBy(Filter(keys, k => k !in incoming), CodeUnitLe);
            Distinct(roots) && Sorted(roots, CodeUnitLe) && forall k :: k in roots <==> IsRoot(rels, k)
  {
    var unsorted := Filter(keys, k => k !in incoming);
    FilterDistinct(keys, k => k !in incoming);
    SortByPermutes(unsorted, CodeUnitLe);
    SortByMembers(unsorted, CodeUnitLe);
    CodeUnitOrder();
    SortBySorted(unsorted, CodeUnitLe);
    DistinctPermutation(unsorted, SortBy(unsorted, CodeUnitLe));
  }

  /** Operations with no incoming relationship, in code-unit order. */
  method Roots(rels: seq<Relationship>) returns (roots: seq<Key>)
    ensures Distinct(roots) && Sorted(roots, CodeUnitLe)
    ensures forall k :: k in roots <==> IsRoot(rels, k)
  {
    ghost var arcs := Arcs(rels);
    var allNodeKeys: seq<Key>, incomingCount: map<Key, int> := [], map[];
    for i := 0 to |rels|
      invariant Listed(allNodeKeys, Nodes(arcs[..i])) && incomingCount.Keys == Targets(arcs[..i])
    {
      var producerKey, consumerKey := ProducerKey(rels[i]), ConsumerKey(rels[i]);
      assert arcs[i] == (producerKey, consumerKey) && arcs[..i + 1] == arcs[..i] + [(producerKey, consumerKey)];
      ArcPush(arcs[..i], producerKey, consumerKey);
      AddKeyListed(allNodeKeys, Nodes(arcs[..i]), producerKey);
      AddKeyListed(AddKey(allNodeKeys, producerKey), Nodes(arcs[..i]) + {producerKey}, consumerKey);
      allNodeKeys := AddKey(AddKey(allNodeKeys, producerKey), consumerKey);
      incomingCount := incomingCount[consumerKey := (if consumerKey in incomingCount then incomingCount[consumerKey] else 0) + 1];
    }
    assert arcs[..|rels|] == arcs;
    SortedRoots(rels, allNodeKeys, incomingCount);
    roots := SortBy(Filter(allNodeKeys, k => k !in incomingCount), CodeUnitLe);
  }

  /** `enumerateWorkflows` */
  method EnumerateWorkflows(rels: seq<Relationship>, maxSteps: nat, le: (string, string) -> bool, idOf: seq<string> -> string)
    returns (workflows: seq<Workflow>, oversizedIds: seq<string>, ghost paths: seq<seq<Relationship>>, ghost oversized: seq<Relationship>)
    ensures Collected(paths, workflows, idOf) && oversizedIds == Ids(oversized)
    ensures forall p :: p in paths <==> IsWorkflowPath(rels, maxSteps, p)
    ensures Distinct(rels) ==> Distinct(paths)
    ensures TotalPreorder(le) ==> PathsInOrder(paths, le)
    ensures forall e :: e in oversized <==> CrossesBound(rels, maxSteps, e)
  {
    var keys, outgoingByNode := GroupBy(rels, ProducerKey);
    forall k ensures if k in outgoingByNode then outgoingByNode[k] == OfKey(rels, ProducerKey, k) else OfKey(rels, ProducerKey, k) == [] {
      GroupedLookUp(rels, keys, outgoingByNode, k);
    }
    var roots := Roots(rels);
    var search := new WorkflowSearch(rels, maxSteps, le, idOf, outgoingByNode);
    for i := 0 to |roots|
      invariant search.Valid() && search.IndexesOutgoing() && fresh(search)
      invariant search.relationships == rels && search.maxSteps == maxSteps && search.le == le && search.idOf == idOf
      invariant search.paths == FromRoots(rels, le, roots[..i], Budget(maxSteps, 1))
      invariant search.oversized == OversizedFromRoots(rels, le, roots[..i], Budget(maxSteps, 1))
    {
      assert roots[..i + 1][..i] == roots[..i];
      search.Visit(roots[i], [], {roots[i]}, 1);
    }
    assert roots[..|roots|] == roots;
    workflows, oversizedIds, paths, oversized := search.workflows, search.oversizedChainRelationshipIds, search.paths, search.oversized;
    FromAllRoots(rels, le, roots, maxSteps);
  }

  lemma GroupedLookUp(rels: seq<Relationship>, keys: seq<Key>, groupOf: map<Key, seq<Relationship>>, k: Key)
    requires Grouped(rels, ProducerKey, keys, groupOf)
    ensures if k in groupOf then groupOf[k] == OfKey(rels, ProducerKey, k) else OfKey(rels, ProducerKey, k) == []
  {
    assert GroupAt(rels, ProducerKey, groupOf, k);
    if k !in groupOf {
      FirstKeysComplete(rels, ProducerKey);
      FilterNone(rels, HasKey(ProducerKey, k));
    }
  }

  // ---- All roots together ----

  lemma EmittedFromRoot(rels: seq<Relationship>, le: (string, string) -> bool, root: Key, budget: nat, p: seq<Relationship>)
    ensures p in Emitted(rels, le, root, [], {root}, budget) <==> p != [] && Maximal(rels, root, {root}, p, budget)
  {
    var suffixes := Suffixes(rels, le, root, {root}, budget);
    ExtendedByNothing(suffixes);
    SuffixesExact(rels, le, root, {root}, budget, p);
  }

  lemma ExtendedByNothing(suffixes: seq<seq<Relationship>>)
    ensures Extended([], suffixes) == suffixes
  {
    forall i | 0 <= i < |suffixes| ensures [] + suffixes[i] == suffixes[i] {}
  }

  lemma MaximalStartsAt(rels: seq<Relationship>, root: Key, budget: nat, p: seq<Relationship>)
    requires p != [] && Maximal(rels, root, {root}, p, budget)
    ensures ProducerKey(p[0]) == root
  {
  }

  lemma {:induction false} FromRootsMember(rels: seq<Relationship>, le: (string, string) -> bool, roots: seq<Key>, budget: nat, p: seq<Relationship>)
    ensures p in FromRoots(rels, le, roots, budget) <==>
            p != [] && ProducerKey(p[0]) in roots && Maximal(rels, ProducerKey(p[0]), {ProducerKey(p[0])}, p, budget)
  {
    if roots != [] {
      var last := roots[|roots| - 1];
      assert roots == roots[..|roots| - 1] + [last];
      FromRootsMember(rels, le, roots[..|roots| - 1], budget, p);
      EmittedFromRoot(rels, le, last, budget, p);
      if p != [] && Maximal(rels, last, {last}, p, budget) { MaximalStartsAt(rels, last, budget, p); }
    }
  }

  lemma FromRootsExact(rels: seq<Relationship>, le: (string, string) -> bool, roots: seq<Key>, maxSteps: nat, p: seq<Relationship>)
    requires forall k :: k in roots <==> IsRoot(rels, k)
    ensures p in FromRoots(rels, le, roots, Budget(maxSteps, 1)) <==> IsWorkflowPath(rels, maxSteps, p)
  {
    FromRootsMember(rels, le, roots, Budget(maxSteps, 1), p);
  }

  lemma {:induction false} FromRootsDistinct(rels: seq<Relationship>, le: (string, string) -> bool, roots: seq<Key>, budget: nat)
    requires Distinct(rels) && Distinct(roots)
    ensures Distinct(FromRoots(rels, le, roots, budget))
  {
    if roots != [] {
      var init, last := roots[..|roots| - 1], roots[|roots| - 1];
      FromRootsDistinct(rels, le, init, budget);
      SuffixesDistinct(rels, le, last, {last}, budget);
      ExtendedByNothing(Suffixes(rels, le, last, {last}, budget));
      FilterDistinct(Suffixes(rels, le, last, {last}, budget), IsPath);
      var before, mine := FromRoots(rels, le, init, budget), Emitted(rels, le, last, [], {last}, budget);
      forall i, j | 0 <= i < |before| && 0 <= j < |mine| ensures before[i] != mine[j] {
        assert before[i] in before && mine[j] in mine;
        FromRootsMember(rels, le, init, budget, before[i]);
        EmittedFromRoot(rels, le, last, budget, mine[j]);
        MaximalStartsAt(rels, last, budget, mine[j]);
      }
    }
  }

  lemma FromAllRoots(rels: seq<Relationship>, le: (string, string) -> bool, roots: seq<Key>, maxSteps: nat)
    requires Distinct(roots) && Sorted(roots, CodeUnitLe) && forall k :: k in roots <==> IsRoot(rels, k)
    ensures var paths := FromRoots(rels, le, roots, Budget(maxSteps, 1));
            (forall p :: p in paths <==> IsWorkflowPath(rels, maxSteps, p))
            && (Distinct(rels) ==> Distinct(paths)) && (TotalPreorder(le) ==> PathsInOrder(paths, le))
    ensures forall e :: e in OversizedFromRoots(rels, le, roots, Budget(maxSteps, 1)) <==> CrossesBound(rels, maxSteps, e)
  {
    var paths := FromRoots(rels, le, roots, Budget(maxSteps, 1));
    forall p ensures p in paths <==> IsWorkflowPath(rels, maxSteps, p) {
      FromRootsExact(rels, le, roots, maxSteps, p);
    }
    forall e ensures e in OversizedFromRoots(rels, le, roots, Budget(maxSteps, 1)) <==> CrossesBound(rels, maxSteps, e) {
      OversizedFromRootsExact(rels, le, roots, maxSteps, e);
    }
    if Distinct(rels) { FromRootsDistinct(rels, le, roots, Budget(maxSteps, 1)); }
    if TotalPreorder(le) { FromRootsInOrder(rels, le, roots, Budget(maxSteps, 1)); }
  }

  lemma EmittedInOrder(rels: seq<Relationship>, le: (string, string) -> bool, root: Key, budget: nat)
    requires TotalPreorder(le)
    ensures PathsInOrder(Emitted(rels, le, root, [], {root}, budget), le)
    ensures forall p :: p in Emitted(rels, le, root, [], {root}, budget) ==> p != [] && ProducerKey(p[0]) == root
  {
    var suffixes, mine := Suffixes(rels, le, root, {root}, budget), Emitted(rels, le, root, [], {root}, budget);
    ExtendedByNothing(suffixes);
    SuffixesInOrder(rels, le, root, {root}, budget);
    FilterKeepsFound(suffixes, IsPath, le);
    forall p | p in mine ensures p != [] && ProducerKey(p[0]) == root {
      EmittedFromRoot(rels, le, root, budget, p);
      MaximalStartsAt(rels, root, budget, p);
    }
  }

  lemma {:induction false} FromRootsInOrder(rels: seq<Relationship>, le: (string, string) -> bool, roots: seq<Key>, budget: nat)
    requires TotalPreorder(le) && Distinct(roots) && Sorted(roots, CodeUnitLe)
    ensures PathsInOrder(FromRoots(rels, le, roots, budget), le)
  {
    if roots != [] {
      var init, last := roots[..|roots| - 1], roots[|roots| - 1];
      var before, mine := FromRoots(rels, le, init, budget), Emitted(rels, le, last, [], {last}, budget);
      FromRootsInOrder(rels, le, init, budget);
      EmittedInOrder(rels, le, last, budget);
      forall i, j | 0 <= i < |before| && 0 <= j < |mine| ensures Precedes(before[i], mine[j], le) {
        assert before[i] in before && mine[j] in mine;
        FromRootsMember(rels, le, init, budget, before[i]);
      }
    }
  }

  lemma {:induction false} OversizedFromRootsMember(rels: seq<Relationship>, le: (string, string) -> bool, roots: seq<Key>, budget: nat, e: Relationship)
    ensures e in OversizedFromRoots(rels, le, roots, budget) <==>
            exists root, q :: root in roots && StoppedBefore(rels, root, {root}, budget, q, e)
  {
    if roots != [] {
      var init, last := roots[..|roots| - 1], roots[|roots| - 1];
      assert roots == init + [last];
      OversizedFromRootsMember(rels, le, init, budget, e);
      OversizedExact(rels, le, last, {last}, budget, e);
    }
  }

  lemma OversizedFromRootsExact(rels: seq<Relationship>, le: (string, string) -> bool, roots: seq<Key>, maxSteps: nat, e: Relationship)
    requires forall k :: k in roots <==> IsRoot(rels, k)
    ensures e in OversizedFromRoots(rels, le, roots, Budget(maxSteps, 1)) <==> CrossesBound(rels, maxSteps, e)
  {
    OversizedFromRootsMember(rels, le, roots, Budget(maxSteps, 1), e);
  }

  // ---- On an acyclic graph ----

  /** On an acyclic graph no path can return, so the search's visited sets never stop it. */
  lemma {:induction false} PathsAreTrails(rels: seq<Relationship>, key: Key, visited: set<Key>, q: seq<Relationship>)
    requires Acyclic(Arcs(rels)) && Follows(rels, key, q)
    requires forall v :: v in visited ==> Reaches(Arcs(rels), v, key)
    ensures Trail(rels, key, visited, q)
    decreases |q|
  {
    if q != [] {
      var c := ConsumerKey(q[0]);
      ArcsMembers(rels);
      assert ArcOf(q[0]) == (key, c);
      forall v | v in visited ensures Reaches(Arcs(rels), v, c) && v != c {
        ReachesOn(Arcs(rels), v, key, c);
      }
      assert Walk(Arcs(rels), [c]) && [c][0] == c && [c][|[c]| - 1] == c;
      PathsAreTrails(rels, c, visited + {c}, q[1..]);
    }
  }

  lemma ReachesOn(arcs: seq<Arc>, v: Key, key: Key, c: Key)
    requires Reaches(arcs, v, key) && Edge(arcs, key, c)
    ensures Reaches(arcs, v, c)
    ensures Acyclic(arcs) ==> v != c
  {
    var p :| Walk(arcs, p) && p[0] == v && p[|p| - 1] == key;
    var w := p + [c];
    assert w[0] == v && w[|w| - 1] == c && |w| >= 2;
    if v == c { assert OnCycle(arcs, v); }
  }

  lemma {:induction false} TrailFollows(rels: seq<Relationship>, key: Key, visited: set<Key>, q: seq<Relationship>)
    requires Trail(rels, key, visited, q)
    ensures Follows(rels, key, q)
    decreases |q|
  {
    if q != [] { TrailFollows(rels, ConsumerKey(q[0]), visited + {ConsumerKey(q[0])}, q[1..]); }
  }

  lemma {:induction false} FollowsPrefix(rels: seq<Relationship>, key: Key, q: seq<Relationship>, j: nat)
    requires Follows(rels, key, q) && j < |q|
    ensures Follows(rels, key, q[..j]) && End(key, q[..j]) == ProducerKey(q[j]) && q[j] in rels
    decreases |q|
  {
    if j > 0 {
      FollowsPrefix(rels, ConsumerKey(q[0]), q[1..], j - 1);
      assert q[..j][1..] == q[1..][..j - 1];
    }
  }

  lemma {:induction false} FollowsAppend(rels: seq<Relationship>, key: Key, q: seq<Relationship>, e: Relationship)
    requires Follows(rels, key, q) && e in rels && ProducerKey(e) == End(key, q)
    ensures Follows(rels, key, q + [e]) && End(key, q + [e]) == ConsumerKey(e)
    decreases |q|
  {
    if q == [] {
      assert q + [e] == [e] && [e][1..] == [];
    } else {
      FollowsAppend(rels, ConsumerKey(q[0]), q[1..], e);
      assert (q + [e])[1..] == q[1..] + [e];
    }
  }

  lemma TrailFromRoot(rels: seq<Relationship>, root: Key, q: seq<Relationship>)
    requires Acyclic(Arcs(rels))
    ensures Trail(rels, root, {root}, q) <==> Follows(rels, root, q)
  {
    assert Walk(Arcs(rels), [root]) && [root][0] == root && [root][|[root]| - 1] == root;
    assert Reaches(Arcs(rels), root, root);
    if Follows(rels, root, q) { PathsAreTrails(rels, root, {root}, q); }
    if Trail(rels, root, {root}, q) { TrailFollows(rels, root, {root}, q); }
  }

  ghost predicate IsSink(rels: seq<Relationship>, k: Key) {
    forall e :: e in rels ==> ProducerKey(e) != k
  }

  /** On an acyclic graph nothing that leaves the end of a root path has been visited. */
  lemma EndLeadsOn(rels: seq<Relationship>, root: Key, q: seq<Relationship>, e: Relationship)
    requires Acyclic(Arcs(rels)) && Follows(rels, root, q)
    ensures LeadsOn(rels, End(root, q), Seen({root}, q), e) <==> e in rels && ProducerKey(e) == End(root, q)
  {
    if e in rels && ProducerKey(e) == End(root, q) {
      FollowsAppend(rels, root, q, e);
      TrailFromRoot(rels, root, q + [e]);
      TrailLast(rels, root, {root}, q, e);
    }
  }

  lemma {:induction false} TrailLast(rels: seq<Relationship>, key: Key, visited: set<Key>, q: seq<Relationship>, e: Relationship)
    requires Trail(rels, key, visited, q + [e])
    ensures Trail(rels, key, visited, q) && LeadsOn(rels, End(key, q), Seen(visited, q), e)
    decreases |q|
  {
    if q == [] {
      assert (q + [e])[0] == e;
    } else {
      assert (q + [e])[1..] == q[1..] + [e] && (q + [e])[0] == q[0];
      TrailLast(rels, ConsumerKey(q[0]), visited + {ConsumerKey(q[0])}, q[1..], e);
    }
  }

  /**
   * On an acyclic relationship set the workflows are exactly the root-started paths that end at a
   * sink or have exactly `maxSteps` operations.
   */
  lemma WorkflowPathsOfAcyclic(rels: seq<Relationship>, maxSteps: nat, p: seq<Relationship>)
    requires Acyclic(Arcs(rels)) && maxSteps >= 1
    ensures IsWorkflowPath(rels, maxSteps, p) <==>
            && p != [] && IsRoot(rels, ProducerKey(p[0])) && Follows(rels, ProducerKey(p[0]), p)
            && |p| + 1 <= maxSteps
            && (|p| + 1 == maxSteps || IsSink(rels, End(ProducerKey(p[0]), p)))
  {
    if p != [] {
      var root := ProducerKey(p[0]);
      TrailFromRoot(rels, root, p);
      if Follows(rels, root, p) {
        forall e ensures LeadsOn(rels, End(root, p), Seen({root}, p), e) <==> e in rels && ProducerKey(e) == End(root, p) {
          EndLeadsOn(rels, root, p, e);
        }
      }
    }
  }

  // ---- Which relationships are reported ----

  ghost predicate InWorkflow(rels: seq<Relationship>, maxSteps: nat, e: Relationship) {
    exists p :: IsWorkflowPath(rels, maxSteps, p) && e in p
  }

  ghost predicate RootPath(rels: seq<Relationship>, maxSteps: nat, root: Key, q: seq<Relationship>, k: Key) {
    IsRoot(rels, root) && Follows(rels, root, q) && End(root, q) == k && |q| + 1 <= maxSteps
  }

  /** Some path of at most `maxSteps` operations leads from a root to `k`. */
  ghost predicate WithinBound(rels: seq<Relationship>, maxSteps: nat, k: Key) {
    exists root, q :: RootPath(rels, maxSteps, root, q, k)
  }

  /** Any root path within the bound grows into one the enumeration emits. */
  lemma {:induction false} GrowsToWorkflow(rels: seq<Relationship>, maxSteps: nat, root: Key, q: seq<Relationship>) returns (p: seq<Relationship>)
    requires Acyclic(Arcs(rels)) && maxSteps >= 1 && IsRoot(rels, root)
    requires q != [] && Follows(rels, root, q) && |q| + 1 <= maxSteps
    ensures IsWorkflowPath(rels, maxSteps, p) && q <= p
    decreases maxSteps - |q|
  {
    WorkflowPathsOfAcyclic(rels, maxSteps, q);
    if |q| + 1 == maxSteps || IsSink(rels, End(root, q)) {
      p := q;
    } else {
      var e :| e in rels && ProducerKey(e) == End(root, q);
      FollowsAppend(rels, root, q, e);
      p := GrowsToWorkflow(rels, maxSteps, root, q + [e]);
    }
  }

  lemma WithinBoundIsReported(rels: seq<Relationship>, maxSteps: nat, root: Key, q: seq<Relationship>, e: Relationship)
    requires Acyclic(Arcs(rels)) && maxSteps >= 1 && e in rels
    requires RootPath(rels, maxSteps, root, q, ProducerKey(e))
    ensures InWorkflow(rels, maxSteps, e) || CrossesBound(rels, maxSteps, e)
  {
    if |q| + 1 < maxSteps {
      FollowsAppend(rels, root, q, e);
      var p := GrowsToWorkflow(rels, maxSteps, root, q + [e]);
      assert p[|q|] == (q + [e])[|q|] == e;
    } else {
      TrailFromRoot(rels, root, q);
      EndLeadsOn(rels, root, q, e);
      assert StoppedBefore(rels, root, {root}, Budget(maxSteps, 1), q, e);
    }
  }

  lemma ReportedIsWithinBound(rels: seq<Relationship>, maxSteps: nat, e: Relationship)
    requires maxSteps >= 1 && (InWorkflow(rels, maxSteps, e) || CrossesBound(rels, maxSteps, e))
    ensures e in rels && WithinBound(rels, maxSteps, ProducerKey(e))
  {
    if p :| IsWorkflowPath(rels, maxSteps, p) && e in p {
      var root := ProducerKey(p[0]);
      var j :| 0 <= j < |p| && p[j] == e;
      TrailFollows(rels, root, {root}, p);
      FollowsPrefix(rels, root, p, j);
      assert RootPath(rels, maxSteps, root, p[..j], ProducerKey(e));
    } else {
      var root, q :| IsRoot(rels, root) && StoppedBefore(rels, root, {root}, Budget(maxSteps, 1), q, e);
      TrailFollows(rels, root, {root}, q);
      assert RootPath(rels, maxSteps, root, q, ProducerKey(e));
    }
  }

  /**
   * A relationship is reported, in a workflow or as oversized, if and only if its producer can be
   * reached from a root within the bound. The others are dropped without a trace.
   */
  lemma ReportedExactly(rels: seq<Relationship>, maxSteps: nat, e: Relationship)
    requires Acyclic(Arcs(rels)) && maxSteps >= 1 && e in rels
    ensures InWorkflow(rels, maxSteps, e) || CrossesBound(rels, maxSteps, e) <==> WithinBound(rels, maxSteps, ProducerKey(e))
  {
    if InWorkflow(rels, maxSteps, e) || CrossesBound(rels, maxSteps, e) {
      ReportedIsWithinBound(rels, maxSteps, e);
    }
    if root, q :| RootPath(rels, maxSteps, root, q, ProducerKey(e)) {
      WithinBoundIsReported(rels, maxSteps, root, q, e);
    }
  }
}
