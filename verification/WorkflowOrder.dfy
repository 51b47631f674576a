/** The order in which workflows are found (backend/src/dependencies/assembleWorkflows.ts:111-134). */
module WorkflowOrder {
  import opened Sequences
  import opened Ordering
  import opened Relationships
  import opened Graphs
  import opened Workflows

  /** The edge is tried no later: by method, path, location and field of its consumer, with spaces between them. */
  predicate EdgeFirst(a: Relationship, b: Relationship, le: (string, string) -> bool) {
    le(EdgeText(a), EdgeText(b))
  }

  function EdgeText(r: Relationship): string {
    r.consumer.operationMethod + " " + r.consumer.operationPath + " "
    + (match r.consumer.location case None => "" case Some(location) => location) + " " + r.consumer.field
  }

  lemma EdgeTextIsKey(r: Relationship)
    ensures EdgeSortKey(r) == EdgeText(r)
  {
    var location := match r.consumer.location case None => "" case Some(location) => location;
    var parts := [r.consumer.operationMethod, r.consumer.operationPath, location, r.consumer.field];
    assert parts[1..] == [r.consumer.operationPath, location, r.consumer.field];
    assert parts[1..][1..] == [location, r.consumer.field];
    assert parts[1..][1..][1..] == [r.consumer.field];
    assert Join([location, r.consumer.field], " ") == location + " " + r.consumer.field;
    assert Join(parts[1..], " ") == r.consumer.operationPath + " " + (location + " " + r.consumer.field);
    assert Join(parts, " ") == r.consumer.operationMethod + " " + (r.consumer.operationPath + " " + (location + " " + r.consumer.field));
  }

  /** The first path takes the earlier edge where the two part. */
  ghost predicate FoundBefore(p: seq<Relationship>, q: seq<Relationship>, le: (string, string) -> bool) {
    exists d: nat :: PartsAt(p, q, d, le)
  }

  ghost predicate PartsAt(p: seq<Relationship>, q: seq<Relationship>, d: nat, le: (string, string) -> bool) {
    d < |p| && d < |q| && p[..d] == q[..d] && EdgeFirst(p[d], q[d], le)
  }

  ghost predicate FoundInOrder(paths: seq<seq<Relationship>>, le: (string, string) -> bool) {
    forall i, j :: 0 <= i < j < |paths| ==> FoundBefore(paths[i], paths[j], le)
  }

  ghost predicate EdgesInOrder(edges: seq<Relationship>, le: (string, string) -> bool) {
    forall i, j :: 0 <= i < j < |edges| ==> EdgeFirst(edges[i], edges[j], le)
  }

  lemma {:induction false} FilterKeepsOrder(edges: seq<Relationship>, keep: Relationship -> bool, le: (string, string) -> bool)
    requires EdgesInOrder(edges, le)
    ensures EdgesInOrder(Filter(edges, keep), le)
  {
    if edges != [] {
      var rest := Filter(edges[1..], keep);
      FilterKeepsOrder(edges[1..], keep, le);
      forall e | e in rest ensures EdgeFirst(edges[0], e, le) {
        var i :| 0 <= i < |edges[1..]| && edges[1..][i] == e;
        assert edges[i + 1] == e;
      }
    }
  }

  /** The edges of an operation are tried in order. */
  lemma EdgesAreSorted(rels: seq<Relationship>, le: (string, string) -> bool, key: Key, visited: set<Key>)
    requires TotalPreorder(le)
    ensures EdgesInOrder(Unvisited(Outgoing(rels, le, key), visited), le)
  {
    var own := OfKey(rels, ProducerKey, key);
    var sorted := Outgoing(rels, le, key);
    KeyedPreorder(le, EdgeSortKey, EdgeOrder(le));
    SortBySorted(own, EdgeOrder(le));
    forall i, j | 0 <= i < j < |sorted| ensures EdgeFirst(sorted[i], sorted[j], le) {
      EdgeTextIsKey(sorted[i]);
      EdgeTextIsKey(sorted[j]);
      assert EdgeOrder(le)(sorted[i], sorted[j]);
    }
    FilterKeepsOrder(sorted, (e: Relationship) => ConsumerKey(e) !in visited, le);
  }

  lemma LongerParts(e: Relationship, p: seq<Relationship>, q: seq<Relationship>, le: (string, string) -> bool)
    requires FoundBefore(p, q, le)
    ensures FoundBefore([e] + p, [e] + q, le)
  {
    var d: nat :| PartsAt(p, q, d, le);
    assert ([e] + p)[..d + 1] == [e] + p[..d];
    assert ([e] + q)[..d + 1] == [e] + q[..d];
    assert ([e] + p)[d + 1] == p[d] && ([e] + q)[d + 1] == q[d];
    assert PartsAt([e] + p, [e] + q, d + 1, le);
  }

  lemma LongerInOrder(e: Relationship, below: seq<seq<Relationship>>, le: (string, string) -> bool)
    requires FoundInOrder(below, le)
    ensures FoundInOrder(EachAfter(e, below), le)
  {
    forall i, j | 0 <= i < j < |below| ensures FoundBefore([e] + below[i], [e] + below[j], le) { LongerParts(e, below[i], below[j], le); }
  }

  lemma StartsEarlier(next: seq<Relationship>, p: seq<Relationship>, q: seq<Relationship>, le: (string, string) -> bool)
    requires next != [] && EdgesInOrder(next, le)
    requires p != [] && p[0] == next[0] && q != [] && q[0] in next[1..]
    ensures FoundBefore(p, q, le)
  {
    var k :| 0 <= k < |next[1..]| && next[1..][k] == q[0];
    assert EdgeFirst(next[0], next[k + 1], le);
    assert PartsAt(p, q, 0, le);
  }

  /** Every way on below an operation takes one of the next edges first. */
  lemma {:induction false} ViaStarts(rels: seq<Relationship>, le: (string, string) -> bool, next: seq<Relationship>, visited: set<Key>, budget: nat)
    requires budget > 0
    ensures forall p :: p in SuffixesVia(rels, le, next, visited, budget) ==> p != [] && p[0] in next
    decreases |next|
  {
    if next != [] { ViaStarts(rels, le, next[1..], visited, budget); }
  }

  lemma {:induction false} ViaInOrder(rels: seq<Relationship>, le: (string, string) -> bool, next: seq<Relationship>, visited: set<Key>, budget: nat)
    requires budget > 0 && TotalPreorder(le) && EdgesInOrder(next, le)
    ensures FoundInOrder(SuffixesVia(rels, le, next, visited, budget), le)
    decreases budget, 0, |next|
  {
    if next != [] {
      var e := next[0];
      var below := Suffixes(rels, le, ConsumerKey(e), visited + {ConsumerKey(e)}, budget - 1);
      var first, rest := EachAfter(e, below), SuffixesVia(rels, le, next[1..], visited, budget);
      SuffixesInOrder(rels, le, ConsumerKey(e), visited + {ConsumerKey(e)}, budget - 1);
      ViaInOrder(rels, le, next[1..], visited, budget);
      ViaStarts(rels, le, next[1..], visited, budget);
      LongerInOrder(e, below, le);
      forall i, j | 0 <= i < |first| && 0 <= j < |rest| ensures FoundBefore(first[i], rest[j], le) {
        assert rest[j] in rest;
        StartsEarlier(next, first[i], rest[j], le);
      }
      JoinInOrder(first, rest, le);
    }
  }

  lemma JoinInOrder(a: seq<seq<Relationship>>, b: seq<seq<Relationship>>, le: (string, string) -> bool)
    requires FoundInOrder(a, le) && FoundInOrder(b, le)
    requires forall i, j :: 0 <= i < |a| && 0 <= j < |b| ==> FoundBefore(a[i], b[j], le)
    ensures FoundInOrder(a + b, le)
  {
  }

  /** Below an operation the ways on are found in the order of the edges where they part. */
  lemma {:induction false} SuffixesInOrder(rels: seq<Relationship>, le: (string, string) -> bool, key: Key, visited: set<Key>, budget: nat)
    requires TotalPreorder(le)
    ensures FoundInOrder(Suffixes(rels, le, key, visited, budget), le)
    decreases budget, 1, 0
  {
    var next := Unvisited(Outgoing(rels, le, key), visited);
    if budget > 0 && next != [] {
      EdgesAreSorted(rels, le, key, visited);
      ViaInOrder(rels, le, next, visited, budget);
    }
  }

  // ---- All roots together ----

  /** Paths from an earlier root come first, and from one root the path that takes the earlier edge. */
  ghost predicate Precedes(p: seq<Relationship>, q: seq<Relationship>, le: (string, string) -> bool) {
    p != [] && q != []
    && if ProducerKey(p[0]) == ProducerKey(q[0]) then FoundBefore(p, q, le) else CodeUnitLe(ProducerKey(p[0]), ProducerKey(q[0]))
  }

  ghost predicate PathsInOrder(paths: seq<seq<Relationship>>, le: (string, string) -> bool) {
    forall i, j :: 0 <= i < j < |paths| ==> Precedes(paths[i], paths[j], le)
  }

  lemma {:induction false} FilterKeepsFound(paths: seq<seq<Relationship>>, keep: seq<Relationship> -> bool, le: (string, string) -> bool)
    requires FoundInOrder(paths, le)
    ensures FoundInOrder(Filter(paths, keep), le)
  {
    if paths != [] {
      var rest := Filter(paths[1..], keep);
      FilterKeepsFound(paths[1..], keep, le);
      forall p | p in rest ensures FoundBefore(paths[0], p, le) {
        var i :| 0 <= i < |paths[1..]| && paths[1..][i] == p;
        assert paths[i + 1] == p;
      }
    }
  }
}
