/** The whole assembly, and where every relationship ends up (assembleWorkflows.ts:143-184). */
module WorkflowAssembly {
  import opened Sequences
  import opened Ordering
  import opened Relationships
  import opened Graphs
  import opened CycleFindings
  import opened DependencyGraph
  import opened MergeRelationships
  import opened WorkflowBuilding
  import opened Workflows
  import opened WorkflowEnumeration

  const MAX_WORKFLOW_STEPS: nat := 10

  datatype Reason = PossibleConfidence | ExcludedByDisambiguation | ChainLengthExceeded

  datatype ManualCandidate = ManualCandidate(relationshipId: string, reason: Reason)

  function Eligible(all: seq<Relationship>): seq<Relationship> {
    Filter(all, (r: Relationship) => r.confidence == CONFIRMED || r.confidence == LIKELY)
  }

  function Possible(all: seq<Relationship>): seq<Relationship> {
    Filter(all, (r: Relationship) => r.confidence == POSSIBLE)
  }

  function CandidatesFor(rels: seq<Relationship>, reason: Reason): seq<ManualCandidate> {
    Map(rels, (r: Relationship) => ManualCandidate(r.id, reason))
  }

  /** The relationships that reach the enumeration. */
  ghost function Enumerated(all: seq<Relationship>, le: (string, string) -> bool): seq<Relationship> {
    Kept(Resolved(Eligible(all), le))
  }

  /** `assembleWorkflows` */
  method AssembleWorkflows(all: seq<Relationship>, le: (string, string) -> bool, idOf: seq<string> -> string)
    returns (workflows: seq<Workflow>, candidates: seq<ManualCandidate>, cycles: seq<Finding>,
             ghost paths: seq<seq<Relationship>>, ghost oversized: seq<Relationship>, ghost groups: seq<seq<Relationship>>, ghost nodeOf: map<Key, OperationNode>)
    requires LocaleOrder(le)
    ensures Collected(paths, workflows, idOf) && Distinct(paths)
    ensures forall p :: p in paths <==> IsWorkflowPath(Enumerated(all, le), 10, p)
    ensures forall e :: e in oversized <==> CrossesBound(Enumerated(all, le), 10, e)
    ensures candidates == CandidatesFor(Possible(all), PossibleConfidence)
                          + CandidatesFor(Excluded(Eligible(all), le), ExcludedByDisambiguation)
                          + CandidatesFor(oversized, ChainLengthExceeded)
    ensures IsGrouping(Cut(Resolved(Eligible(all), le)), groups)
    ensures nodeOf.Keys == Nodes(Arcs(Resolved(Eligible(all), le))) && forall k :: k in nodeOf ==> NodeKey(nodeOf[k]) == k
    ensures multiset(cycles) == multiset(Map(groups, g => DescribeGroup(g, nodeOf))) && Sorted(cycles, ByJoinedIds(le))
  {
    var eligible, possible := Eligible(all), Possible(all);
    var resolved, excluded := ResolveProducerDisambiguation(eligible, le);
    var acyclicRelationships;
    acyclicRelationships, cycles, groups, nodeOf := BuildDependencyGraph(resolved, le);
    EnumeratedIsDistinct(all, le);
    var oversizedIds;
    workflows, oversizedIds, paths, oversized := EnumerateWorkflows(acyclicRelationships, MAX_WORKFLOW_STEPS, le, idOf);
    candidates := CandidatesFor(possible, PossibleConfidence) + CandidatesFor(excluded, ExcludedByDisambiguation)
      + Map(oversizedIds, id => ManualCandidate(id, ChainLengthExceeded));
    assert Map(oversizedIds, id => ManualCandidate(id, ChainLengthExceeded)) == CandidatesFor(oversized, ChainLengthExceeded);
  }

  /** Only a possible relationship is set aside for its confidence, and a candidate names its relationship and the reason. */
  lemma SetAside(all: seq<Relationship>, r: Relationship, reason: Reason)
    ensures r in Possible(all) <==> r in all && r.confidence == POSSIBLE
    ensures r in Eligible(all) <==> r in all && r.confidence != POSSIBLE
    ensures |CandidatesFor(all, reason)| == |all|
    ensures forall i :: 0 <= i < |all| ==> CandidatesFor(all, reason)[i] == ManualCandidate(all[i].id, reason)
  {
  }

  /** One relationship per consuming field survives disambiguation, so the enumeration sees no duplicates. */
  lemma EnumeratedIsDistinct(all: seq<Relationship>, le: (string, string) -> bool)
    requires LocaleOrder(le)
    ensures Distinct(Enumerated(all, le))
  {
    var resolved := Resolved(Eligible(all), le);
    OneKeptPerField(Eligible(all), le);
    var fields := Map(resolved, ConsumerField);
    forall i, j | 0 <= i < j < |resolved| ensures resolved[i] != resolved[j] {
      assert fields[i] != fields[j];
    }
    FilterDistinct(resolved, r => !BothLeftover(resolved, r));
  }

  /** Every relationship is in exactly one of: possible, excluded, cut out with a cycle, enumerated. */
  lemma EveryRelationshipIsPlaced(all: seq<Relationship>, le: (string, string) -> bool)
    ensures multiset(all) == multiset(Possible(all)) + multiset(Excluded(Eligible(all), le))
                             + multiset(Cut(Resolved(Eligible(all), le))) + multiset(Enumerated(all, le))
  {
    FilterSplits(all, (r: Relationship) => r.confidence == CONFIRMED || r.confidence == LIKELY,
                 (r: Relationship) => r.confidence == POSSIBLE);
    DisambiguationPartitions(Eligible(all), le);
    KeptAndCutPartition(Resolved(Eligible(all), le));
  }

  /**
   * An enumerated relationship appears in a workflow or as an oversized candidate if and only if its
   * producer lies within the step bound of a root; every other enumerated relationship is dropped.
   */
  lemma EnumeratedIsReportedExactly(all: seq<Relationship>, le: (string, string) -> bool, e: Relationship)
    requires e in Enumerated(all, le)
    ensures InWorkflow(Enumerated(all, le), 10, e) || CrossesBound(Enumerated(all, le), 10, e)
            <==> WithinBound(Enumerated(all, le), 10, ProducerKey(e))
  {
    KeptIsAcyclic(Resolved(Eligible(all), le));
    ReportedExactly(Enumerated(all, le), MAX_WORKFLOW_STEPS, e);
  }

  // ---- A chain long enough to lose its end ----

  function Path(i: nat): (p: string)
    ensures |p| == i
  {
    if i == 0 then "" else Path(i - 1) + "a"
  }

  /** The i-th hand-off of a straight chain of GET operations. */
  function Link(i: nat): Relationship {
    Relationship(Path(i), FieldRef(Path(i), "GET", "id", None), FieldRef(Path(i + 1), "GET", "id", Some("path")),
                 CONFIRMED, Deterministic, None, None, None)
  }

  function Chain(n: nat): (c: seq<Relationship>)
    ensures |c| == n && forall i :: 0 <= i < n ==> c[i] == Link(i)
  {
    if n == 0 then [] else Chain(n - 1) + [Link(n - 1)]
  }

  function StationKey(i: nat): Key {
    NodeKey(OperationNode(Path(i), "GET"))
  }

  lemma StationsDiffer(i: nat, j: nat)
    requires StationKey(i) == StationKey(j)
    ensures i == j
  {
    assert Join(["GET", Path(i)], " ") == "GET" + " " + Join([Path(i)], " ") by { assert ["GET", Path(i)][1..] == [Path(i)]; }
    assert Join(["GET", Path(j)], " ") == "GET" + " " + Join([Path(j)], " ") by { assert ["GET", Path(j)][1..] == [Path(j)]; }
    assert |StationKey(i)| == 4 + i && |StationKey(j)| == 4 + j;
  }

  lemma LinkFieldsDiffer(i: nat, j: nat)
    requires ConsumerField(Link(i)) == ConsumerField(Link(j))
    ensures i == j
  {
    FieldLength(i);
    FieldLength(j);
  }

  lemma FieldLength(i: nat)
    ensures |ConsumerField(Link(i))| == i + 1 + |"|GET|id|path"|
  {
    var parts := [Path(i + 1), "GET", "id", "path"];
    assert parts[1..] == ["GET", "id", "path"] && parts[1..][1..] == ["id", "path"] && parts[1..][1..][1..] == ["path"];
    assert Join(["id", "path"], "|") == "id" + "|" + Join(["path"], "|") by { assert ["id", "path"][1..] == ["path"]; }
    assert Join(["GET", "id", "path"], "|") == "GET" + "|" + Join(["id", "path"], "|");
    assert Join(parts, "|") == Path(i + 1) + "|" + Join(["GET", "id", "path"], "|");
  }

  /** Exactly the links of a chain of length `n`, in any arrangement. */
  ghost predicate IsChain(rels: seq<Relationship>, n: nat) {
    forall r :: r in rels <==> r in Chain(n)
  }

  lemma LinkOf(rels: seq<Relationship>, n: nat, r: Relationship) returns (i: nat)
    requires IsChain(rels, n) && r in rels
    ensures i < n && r == Link(i)
  {
    assert r in Chain(n);
    var j :| 0 <= j < n && Chain(n)[j] == r;
    i := j;
  }

  lemma ChainArc(rels: seq<Relationship>, n: nat, e: Arc) returns (i: nat)
    requires IsChain(rels, n) && e in Arcs(rels)
    ensures i < n && e == (StationKey(i), StationKey(i + 1))
  {
    ArcsMembers(rels);
    var r :| r in rels && ArcOf(r) == e;
    i := LinkOf(rels, n, r);
  }

  lemma {:induction false} WalkAdvances(rels: seq<Relationship>, n: nat, p: seq<Key>, i: nat)
    requires IsChain(rels, n) && Walk(Arcs(rels), p) && p[0] == StationKey(i)
    ensures p[|p| - 1] == StationKey(i + |p| - 1)
    decreases |p|
  {
    if |p| > 1 {
      assert Edge(Arcs(rels), p[0], p[1]);
      var j := ChainArc(rels, n, (p[0], p[1]));
      StationsDiffer(i, j);
      WalkAdvances(rels, n, p[1..], i + 1);
    }
  }

  lemma NoWayBack(rels: seq<Relationship>, n: nat, p: seq<Key>)
    requires IsChain(rels, n) && Walk(Arcs(rels), p) && |p| >= 2
    ensures p[0] != p[|p| - 1]
  {
    assert Edge(Arcs(rels), p[0], p[1]);
    var i := ChainArc(rels, n, (p[0], p[1]));
    WalkAdvances(rels, n, p, i);
    if p[0] == p[|p| - 1] { StationsDiffer(i, i + |p| - 1); }
  }

  lemma ChainIsAcyclic(rels: seq<Relationship>, n: nat)
    requires IsChain(rels, n)
    ensures Acyclic(Arcs(rels))
  {
    forall k ensures !OnCycle(Arcs(rels), k) {
      if p :| Walk(Arcs(rels), p) && |p| >= 2 && p[0] == k && p[|p| - 1] == k {
        NoWayBack(rels, n, p);
      }
    }
  }

  lemma {:induction false} PathAdvances(rels: seq<Relationship>, n: nat, i: nat, q: seq<Relationship>)
    requires IsChain(rels, n) && Follows(rels, StationKey(i), q)
    ensures End(StationKey(i), q) == StationKey(i + |q|)
    decreases |q|
  {
    if q != [] {
      var j := LinkOf(rels, n, q[0]);
      StationsDiffer(i, j);
      PathAdvances(rels, n, i + 1, q[1..]);
    }
  }

  lemma LinkTarget(rels: seq<Relationship>, n: nat, i: nat)
    requires IsChain(rels, n) && i < n
    ensures StationKey(i + 1) in Targets(Arcs(rels))
  {
    assert Chain(n)[i] == Link(i) && Link(i) in rels;
    ArcsMembers(rels);
    assert ArcOf(Link(i)) in Arcs(rels) && ArcOf(Link(i)).1 == StationKey(i + 1);
  }

  lemma ChainRoot(rels: seq<Relationship>, n: nat, root: Key)
    requires IsChain(rels, n) && IsRoot(rels, root)
    ensures root == StationKey(0)
  {
    var e :| e in Arcs(rels) && (e.0 == root || e.1 == root);
    var i := ChainArc(rels, n, e);
    if i > 0 { LinkTarget(rels, n, i - 1); }
  }

  /** Nothing within `maxSteps` operations of the start reaches the producer of link number `maxSteps`. */
  lemma ChainEndIsOutOfReach(rels: seq<Relationship>, n: nat, maxSteps: nat)
    requires IsChain(rels, n)
    ensures !WithinBound(rels, maxSteps, ProducerKey(Link(maxSteps)))
  {
    if root, q :| RootPath(rels, maxSteps, root, q, ProducerKey(Link(maxSteps))) {
      ChainRoot(rels, n, root);
      PathAdvances(rels, n, 0, q);
      StationsDiffer(|q|, maxSteps);
    }
  }

  lemma NotExcluded(all: seq<Relationship>, resolved: seq<Relationship>, excluded: seq<Relationship>, x: Relationship)
    requires multiset(resolved) + multiset(excluded) == multiset(all)
    requires Distinct(all) && x in all && x in resolved
    ensures x !in excluded
  {
    DistinctMultiset(all);
    assert multiset(all)[x] == multiset(resolved)[x] + multiset(excluded)[x];
    assert x in multiset(resolved);
  }

  lemma ChainIsEligible(n: nat)
    ensures Eligible(Chain(n)) == Chain(n) && Possible(Chain(n)) == []
  {
    FilterAll(Chain(n), (r: Relationship) => r.confidence == CONFIRMED || r.confidence == LIKELY);
    FilterNone(Chain(n), (r: Relationship) => r.confidence == POSSIBLE);
  }

  lemma ChainLinkIsResolved(n: nat, le: (string, string) -> bool, i: nat)
    requires LocaleOrder(le) && i < n
    ensures Link(i) in Resolved(Chain(n), le)
  {
    var all, resolved := Chain(n), Resolved(Chain(n), le);
    assert all[i] == Link(i);
    OneKeptPerField(all, le);
    var fields := Map(resolved, ConsumerField);
    assert ConsumerField(Link(i)) in fields;
    var k :| 0 <= k < |fields| && fields[k] == ConsumerField(Link(i));
    ResolvedIsBestAt(all, le, k);
    var j := LinkOf(all, n, resolved[k]);
    LinkFieldsDiffer(i, j);
  }

  lemma ChainIsResolved(n: nat, le: (string, string) -> bool)
    requires LocaleOrder(le)
    ensures IsChain(Resolved(Chain(n), le), n)
  {
    var all, resolved := Chain(n), Resolved(Chain(n), le);
    DisambiguationPartitions(all, le);
    forall r | r in resolved ensures r in all { assert r in multiset(all); }
    forall r | r in all ensures r in resolved {
      var i := LinkOf(all, n, r);
      ChainLinkIsResolved(n, le, i);
    }
  }

  lemma ChainIsDistinct(n: nat)
    ensures Distinct(Chain(n))
  {
    forall i, j | 0 <= i < j < n ensures Chain(n)[i] != Chain(n)[j] {
      assert |Link(i).id| != |Link(j).id|;
    }
  }

  /**
   * The comment above `assembleWorkflows` says no relationship is silently dropped. This one is: in a
   * chain of eleven confirmed hand-offs the last appears in no workflow, no finding and no candidate.
   */
  lemma LongChainDropsItsEnd(le: (string, string) -> bool)
    requires LocaleOrder(le)
    ensures var all, last := Chain(11), Link(10);
            && last in all && last !in Possible(all) && last !in Excluded(Eligible(all), le)
            && last !in Cut(Resolved(Eligible(all), le))
            && last in Enumerated(all, le)
            && !InWorkflow(Enumerated(all, le), 10, last) && !CrossesBound(Enumerated(all, le), 10, last)
  {
    var n := MAX_WORKFLOW_STEPS + 1;
    var all, last := Chain(n), Link(MAX_WORKFLOW_STEPS);
    assert all[MAX_WORKFLOW_STEPS] == last;
    ChainIsEligible(n);
    ChainIsResolved(n, le);
    ChainIsDistinct(n);
    DisambiguationPartitions(all, le);
    NotExcluded(all, Resolved(all, le), Excluded(all, le), last);
    ChainIsAcyclic(Resolved(all, le), n);
    AcyclicIsKeptWhole(Resolved(all, le));
    ChainEndIsOutOfReach(Enumerated(all, le), n, MAX_WORKFLOW_STEPS);
    EnumeratedIsReportedExactly(all, le, last);
  }
}
