/** Kahn's elimination over the operation graph (backend/src/dependencies/buildDependencyGraph.ts:34-90). */
module DependencyGraph {
  import opened Sequences
  import opened Ordering
  import opened Relationships
  import opened Graphs
  import opened CycleFindings

  // ---- What the result means ----

  /** The operations a cycle reaches: cycle members and everything downstream of one. */
  ghost function Leftover(arcs: seq<Arc>): set<Key> {
    set k | k in Nodes(arcs) && DownstreamOfCycle(arcs, k)
  }

  ghost predicate BothLeftover(rels: seq<Relationship>, r: Relationship) {
    ProducerKey(r) in Leftover(Arcs(rels)) && ConsumerKey(r) in Leftover(Arcs(rels))
  }

  /** The relationships cut out, in input order. */
  ghost function Cut(rels: seq<Relationship>): seq<Relationship> {
    Filter(rels, r => BothLeftover(rels, r))
  }

  /** The relationships kept, in input order. */
  ghost function Kept(rels: seq<Relationship>): seq<Relationship> {
    Filter(rels, r => !BothLeftover(rels, r))
  }

  /** No relationship leads from a leftover operation to one that was removed. */
  lemma NoEdgeOutOfLeftover(rels: seq<Relationship>, r: Relationship)
    requires r in rels && ProducerKey(r) in Leftover(Arcs(rels))
    ensures ConsumerKey(r) in Leftover(Arcs(rels))
  {
    ArcsMembers(rels);
    assert ArcOf(r) in Arcs(rels);
    DownstreamStep(Arcs(rels), ProducerKey(r), ConsumerKey(r));
  }

  /** Kept and cut relationships partition the input. */
  lemma KeptAndCutPartition(rels: seq<Relationship>)
    ensures multiset(Kept(rels)) + multiset(Cut(rels)) == multiset(rels)
  {
    FilterSplits(rels, r => !BothLeftover(rels, r), r => BothLeftover(rels, r));
  }

  /** The kept relationships have no cycle left. */
  lemma KeptIsAcyclic(rels: seq<Relationship>)
    ensures Acyclic(Arcs(Kept(rels)))
  {
    var arcs, kept := Arcs(rels), Arcs(Kept(rels));
    ArcsMembers(rels);
    ArcsMembers(Kept(rels));
    forall k ensures !OnCycle(kept, k) {
      if OnCycle(kept, k) {
        var p :| Walk(kept, p) && |p| >= 2 && p[0] == k && p[|p| - 1] == k;
        OnCycleIsDownstream(arcs, k);
        assert Edge(kept, p[0], p[1]);
        var r :| r in Kept(rels) && ArcOf(r) == (p[0], p[1]);
        NoEdgeOutOfLeftover(rels, r);
        assert false;
      }
    }
  }

  /** Nothing else is cut: an acyclic input is returned whole. */
  lemma AcyclicIsKeptWhole(rels: seq<Relationship>)
    requires Acyclic(Arcs(rels))
    ensures Kept(rels) == rels && Cut(rels) == []
  {
    FilterAll(rels, r => !BothLeftover(rels, r));
    FilterNone(rels, r => BothLeftover(rels, r));
  }

  // ---- Left over beside a producer outside every cycle ----

  function HandOff(producerPath: string, consumerPath: string): Relationship {
    Relationship(producerPath + consumerPath, FieldRef(producerPath, "GET", "id", None),
                 FieldRef(consumerPath, "GET", "id", Some("path")), CONFIRMED, Deterministic, None, None, None)
  }

  lemma GetKey(path: string)
    ensures NodeKey(OperationNode(path, "GET")) == "GET " + path
  {
    var parts := ["GET", path];
    assert parts[1..] == [path];
    assert Join(parts, " ") == "GET" + " " + Join(parts[1..], " ");
    assert "GET" + " " == "GET ";
  }

  lemma HandOffArc(producerPath: string, consumerPath: string)
    ensures ArcOf(HandOff(producerPath, consumerPath)) == ("GET " + producerPath, "GET " + consumerPath)
  {
    GetKey(producerPath);
    GetKey(consumerPath);
  }

  /** `/cart` hands on to itself; `/order` consumes from it and from `/me`, which no cycle reaches. */
  const TWO_PRODUCERS := [HandOff("/cart", "/cart"), HandOff("/cart", "/order"), HandOff("/me", "/order")]

  const TWO_PRODUCER_ARCS: seq<Arc> := [("GET /cart", "GET /cart"), ("GET /cart", "GET /order"), ("GET /me", "GET /order")]

  lemma TwoProducerArcs()
    ensures Arcs(TWO_PRODUCERS) == TWO_PRODUCER_ARCS
  {
    HandOffArc("/cart", "/cart");
    HandOffArc("/cart", "/order");
    HandOffArc("/me", "/order");
    TwoProducerKeys();
  }

  lemma TwoProducerKeys()
    ensures "GET " + "/cart" == "GET /cart" && "GET " + "/order" == "GET /order" && "GET " + "/me" == "GET /me"
  {
  }

  lemma NoCycleReachesMe()
    ensures !DownstreamOfCycle(TWO_PRODUCER_ARCS, "GET /me")
  {
    var arcs, me := TWO_PRODUCER_ARCS, "GET /me";
    assert |"GET /me"| == 7 && |"GET /cart"| == 9 && |"GET /order"| == 10;
    if c :| OnCycle(arcs, c) && Reaches(arcs, c, me) {
      var p :| Walk(arcs, p) && p[0] == c && p[|p| - 1] == me;
      if |p| > 1 {
        assert Edge(arcs, p[|p| - 2], p[|p| - 1]);
      } else {
        var q :| Walk(arcs, q) && |q| >= 2 && q[0] == c && q[|q| - 1] == c;
        assert Edge(arcs, q[|q| - 2], q[|q| - 1]);
      }
    }
  }

  lemma CycleReachesOrder()
    ensures "GET /cart" in Leftover(TWO_PRODUCER_ARCS) && "GET /order" in Leftover(TWO_PRODUCER_ARCS)
    ensures Edge(TWO_PRODUCER_ARCS, "GET /me", "GET /order")
  {
    var arcs := TWO_PRODUCER_ARCS;
    assert arcs[0] in arcs && arcs[1] in arcs && arcs[2] in arcs;
    assert Walk(arcs, ["GET /cart", "GET /cart"]) && OnCycle(arcs, "GET /cart");
    OnCycleIsDownstream(arcs, "GET /cart");
    DownstreamStep(arcs, "GET /cart", "GET /order");
  }

  /** `/order` is left over although it is not exclusively downstream of the cycle, and the hand-off from `/cart` is cut. */
  lemma LeftOverBesideOtherProducer()
    ensures var arcs := Arcs(TWO_PRODUCERS);
            && "GET /order" in Leftover(arcs) && Edge(arcs, "GET /me", "GET /order") && "GET /me" !in Leftover(arcs)
    ensures HandOff("/cart", "/order") in Cut(TWO_PRODUCERS) && HandOff("/me", "/order") in Kept(TWO_PRODUCERS)
  {
    TwoProducerArcs();
    CycleReachesOrder();
    NoCycleReachesMe();
    HandOffArc("/cart", "/order");
    HandOffArc("/me", "/order");
    TwoProducerKeys();
    assert TWO_PRODUCERS[1] in TWO_PRODUCERS && TWO_PRODUCERS[2] in TWO_PRODUCERS;
  }

  // ---- The node and edge index ----

  /** The maps of the source; `nodes` is the insertion order of their keys. */
  datatype Index = Index(
    nodes: seq<Key>, nodeOf: map<Key, OperationNode>, outgoing: map<Key, seq<Key>>, inDegree: map<Key, int>)

  function EnsureNode(ix: Index, key: Key, node: OperationNode): Index {
    if key in ix.outgoing then ix
    else Index(ix.nodes + [key], ix.nodeOf[key := node], ix.outgoing[key := []], ix.inDegree[key := 0])
  }

  function AddEdge(ix: Index, a: Key, b: Key): Index
    requires a in ix.outgoing && b in ix.inDegree
  {
    if b in ix.outgoing[a] then ix
    else ix.(outgoing := ix.outgoing[a := ix.outgoing[a] + [b]], inDegree := ix.inDegree[b := ix.inDegree[b] + 1])
  }

  ghost predicate WellKeyed(ix: Index) {
    && Distinct(ix.nodes) && (forall k :: k in ix.nodes <==> k in ix.outgoing)
    && ix.outgoing.Keys == ix.inDegree.Keys == ix.nodeOf.Keys
    && (forall k :: k in ix.nodeOf ==> NodeKey(ix.nodeOf[k]) == k)
  }

  /** Every operation's list holds its successors, each once. */
  ghost predicate ListsEdges(arcs: seq<Arc>, outgoing: map<Key, seq<Key>>) {
    forall a :: a in outgoing ==> Distinct(outgoing[a]) && forall b :: b in outgoing[a] <==> (a, b) in arcs
  }

  ghost predicate CountsPredecessorsAt(arcs: seq<Arc>, inDegree: map<Key, int>, n: Key) {
    n in inDegree ==> inDegree[n] == |Predecessors(arcs, n)|
  }

  /** An in-degree counts the distinct predecessors. */
  ghost predicate CountsPredecessors(arcs: seq<Arc>, inDegree: map<Key, int>) {
    forall n {:trigger CountsPredecessorsAt(arcs, inDegree, n)} :: CountsPredecessorsAt(arcs, inDegree, n)
  }

  ghost predicate Describes(arcs: seq<Arc>, ix: Index) {
    WellKeyed(ix) && ListsEdges(arcs, ix.outgoing) && CountsPredecessors(arcs, ix.inDegree) && Nodes(arcs) <= ix.outgoing.Keys
  }

  /** The index describes exactly the graph of `arcs`, and an in-degree counts distinct predecessors. */
  ghost predicate Indexes(arcs: seq<Arc>, ix: Index) {
    Describes(arcs, ix) && ix.outgoing.Keys == Nodes(arcs)
  }

  lemma IsPredecessor(arcs: seq<Arc>, p: Key, n: Key)
    ensures p in Predecessors(arcs, n) <==> (p, n) in arcs
    ensures (p, n) in arcs ==> p in Nodes(arcs) && n in Nodes(arcs)
  {
    if e :| e in arcs && e.1 == n && e.0 == p { assert e == (p, n); }
    if (p, n) in arcs { assert (p, n).0 == p && (p, n).1 == n; }
  }

  lemma EnsureNodeIsKeyed(ix: Index, key: Key, node: OperationNode)
    requires WellKeyed(ix) && NodeKey(node) == key
    ensures WellKeyed(EnsureNode(ix, key, node))
  {
    if key !in ix.outgoing {
      assert key !in ix.nodes;
    }
  }

  lemma EnsureNodeLists(arcs: seq<Arc>, ix: Index, key: Key, node: OperationNode)
    requires ListsEdges(arcs, ix.outgoing) && Nodes(arcs) <= ix.outgoing.Keys
    ensures ListsEdges(arcs, EnsureNode(ix, key, node).outgoing)
  {
    if key !in ix.outgoing {
      forall b ensures (key, b) !in arcs { IsPredecessor(arcs, key, b); }
    }
  }

  lemma EnsureNodeCounts(arcs: seq<Arc>, ix: Index, key: Key, node: OperationNode)
    requires WellKeyed(ix) && CountsPredecessors(arcs, ix.inDegree) && Nodes(arcs) <= ix.outgoing.Keys
    ensures CountsPredecessors(arcs, EnsureNode(ix, key, node).inDegree)
  {
    if key !in ix.outgoing {
      forall p ensures p !in Predecessors(arcs, key) { IsPredecessor(arcs, p, key); }
      assert Predecessors(arcs, key) == {};
      var inDegree := EnsureNode(ix, key, node).inDegree;
      forall n ensures CountsPredecessorsAt(arcs, inDegree, n) {
        assert CountsPredecessorsAt(arcs, ix.inDegree, n);
      }
    }
  }

  lemma EnsureNodeKeeps(arcs: seq<Arc>, ix: Index, key: Key, node: OperationNode)
    requires Describes(arcs, ix) && NodeKey(node) == key
    ensures Describes(arcs, EnsureNode(ix, key, node))
    ensures EnsureNode(ix, key, node).outgoing.Keys == ix.outgoing.Keys + {key}
  {
    EnsureNodeIsKeyed(ix, key, node);
    EnsureNodeLists(arcs, ix, key, node);
    EnsureNodeCounts(arcs, ix, key, node);
  }

  lemma PredecessorsPush(done: seq<Arc>, e: Arc, n: Key)
    ensures Predecessors(done + [e], n) == Predecessors(done, n) + (if n == e.1 then {e.0} else {})
  {
    assert e in done + [e];
    forall d | d in done ensures d in done + [e] {}
  }

  lemma NodesPush(done: seq<Arc>, e: Arc)
    ensures Nodes(done + [e]) == Nodes(done) + {e.0, e.1}
  {
    assert e in done + [e];
    forall d | d in done ensures d in done + [e] {}
  }

  lemma AddEdgeLists(done: seq<Arc>, ix: Index, a: Key, b: Key)
    requires ListsEdges(done, ix.outgoing) && a in ix.outgoing && b in ix.inDegree
    ensures ListsEdges(done + [(a, b)], AddEdge(ix, a, b).outgoing)
  {
    forall x, y ensures (x, y) in done + [(a, b)] <==> (x, y) in done || (x == a && y == b) {}
  }

  lemma AddEdgeCounts(done: seq<Arc>, ix: Index, a: Key, b: Key)
    requires ListsEdges(done, ix.outgoing) && CountsPredecessors(done, ix.inDegree)
    requires a in ix.outgoing && b in ix.inDegree
    ensures CountsPredecessors(done + [(a, b)], AddEdge(ix, a, b).inDegree)
  {
    var inDegree := AddEdge(ix, a, b).inDegree;
    IsPredecessor(done, a, b);
    forall n ensures CountsPredecessorsAt(done + [(a, b)], inDegree, n) {
      assert CountsPredecessorsAt(done, ix.inDegree, n);
      PredecessorsPush(done, (a, b), n);
      if n != b || b in ix.outgoing[a] {
        assert Predecessors(done + [(a, b)], n) == Predecessors(done, n);
      }
    }
  }

  lemma AddEdgeKeeps(done: seq<Arc>, ix: Index, a: Key, b: Key)
    requires Describes(done, ix) && a in ix.outgoing && b in ix.outgoing
    ensures Describes(done + [(a, b)], AddEdge(ix, a, b))
    ensures AddEdge(ix, a, b).outgoing.Keys == ix.outgoing.Keys
  {
    AddEdgeLists(done, ix, a, b);
    AddEdgeCounts(done, ix, a, b);
    NodesPush(done, (a, b));
  }

  /** One turn of the first loop: both operations are known, then the edge is. */
  function IndexTurn(ix: Index, r: Relationship): Index {
    var producerKnown := EnsureNode(ix, ProducerKey(r), ProducerNode(r));
    var consumerKnown := EnsureNode(producerKnown, ConsumerKey(r), ConsumerNode(r));
    if ProducerKey(r) in consumerKnown.outgoing && ConsumerKey(r) in consumerKnown.inDegree then
      AddEdge(consumerKnown, ProducerKey(r), ConsumerKey(r))
    else consumerKnown
  }

  lemma BothNodesKnown(done: seq<Arc>, ix: Index, r: Relationship)
    requires Describes(done, ix)
    ensures var known := EnsureNode(EnsureNode(ix, ProducerKey(r), ProducerNode(r)), ConsumerKey(r), ConsumerNode(r));
            Describes(done, known) && known.outgoing.Keys == ix.outgoing.Keys + {ProducerKey(r), ConsumerKey(r)}
  {
    EnsureNodeKeeps(done, ix, ProducerKey(r), ProducerNode(r));
    EnsureNodeKeeps(done, EnsureNode(ix, ProducerKey(r), ProducerNode(r)), ConsumerKey(r), ConsumerNode(r));
  }

  lemma IndexTurnKeeps(done: seq<Arc>, ix: Index, r: Relationship)
    requires Indexes(done, ix)
    ensures Indexes(done + [ArcOf(r)], IndexTurn(ix, r))
  {
    BothNodesKnown(done, ix, r);
    var known := EnsureNode(EnsureNode(ix, ProducerKey(r), ProducerNode(r)), ConsumerKey(r), ConsumerNode(r));
    AddEdgeKeeps(done, known, ProducerKey(r), ConsumerKey(r));
    NodesPush(done, (ProducerKey(r), ConsumerKey(r)));
  }

  /** The first loop of `buildDependencyGraph`. */
  method IndexOperations(rels: seq<Relationship>) returns (ix: Index)
    ensures Indexes(Arcs(rels), ix)
  {
    ix := Index([], map[], map[], map[]);
    for i := 0 to |rels|
      invariant Indexes(Arcs(rels)[..i], ix)
    {
      assert Arcs(rels)[..i + 1] == Arcs(rels)[..i] + [ArcOf(rels[i])];
      IndexTurnKeeps(Arcs(rels)[..i], ix, rels[i]);
      ix := IndexTurn(ix, rels[i]);
    }
    assert Arcs(rels)[..|rels|] == Arcs(rels);
  }

  // ---- Elimination ----

  ghost predicate CountsRemainingAt(arcs: seq<Arc>, remaining: map<Key, int>, before: set<Key>, current: Key, done: set<Key>, n: Key) {
    n in remaining ==> remaining[n] == |Predecessors(arcs, n) - (if n in done then before + {current} else before)|
  }

  /** While `current` is being processed: its edges into `done` are already discounted, the others not yet. */
  ghost predicate CountsRemaining(arcs: seq<Arc>, remaining: map<Key, int>, before: set<Key>, current: Key, done: set<Key>) {
    forall n {:trigger CountsRemainingAt(arcs, remaining, before, current, done, n)} ::
      CountsRemainingAt(arcs, remaining, before, current, done, n)
  }

  /** The queue holds exactly the operations with nothing left to wait for, predecessors first. */
  ghost predicate QueueIsReady(arcs: seq<Arc>, remaining: map<Key, int>, queue: seq<Key>) {
    && Distinct(queue) && PredecessorsFirst(arcs, queue)
    && remaining.Keys == Nodes(arcs)
    && (forall k :: k in queue <==> k in remaining && remaining[k] == 0)
  }

  /** An operation waiting for `current` has not been removed, so `removed.has(neighbor)` never holds. */
  lemma NeighborIsWaiting(arcs: seq<Arc>, remaining: map<Key, int>, queue: seq<Key>, before: set<Key>, current: Key, done: set<Key>, n: Key)
    requires QueueIsReady(arcs, remaining, queue) && CountsRemaining(arcs, remaining, before, current, done)
    requires (current, n) in arcs && current !in before && n !in done
    requires forall k :: k in before + {current} ==> k in queue
    ensures n in remaining && remaining[n] >= 1 && n !in before + {current} && n !in queue
  {
    IsPredecessor(arcs, current, n);
    assert CountsRemainingAt(arcs, remaining, before, current, done, n);
    assert current in Predecessors(arcs, n) - before;
    forall k | k in before + {current} ensures k != n { assert k in queue; }
  }

  lemma DiscountCountsAt(arcs: seq<Arc>, remaining: map<Key, int>, before: set<Key>, current: Key, done: set<Key>, n: Key, k: Key)
    requires CountsRemainingAt(arcs, remaining, before, current, done, k)
    requires (current, n) in arcs && current !in before && n !in done && n in remaining
    ensures CountsRemainingAt(arcs, remaining[n := remaining[n] - 1], before, current, done + {n}, k)
  {
    if k == n {
      IsPredecessor(arcs, current, n);
      assert Predecessors(arcs, n) - (before + {current}) == Predecessors(arcs, n) - before - {current};
    }
  }

  lemma DiscountCounts(arcs: seq<Arc>, remaining: map<Key, int>, before: set<Key>, current: Key, done: set<Key>, n: Key)
    requires CountsRemaining(arcs, remaining, before, current, done)
    requires (current, n) in arcs && current !in before && n !in done && n in remaining
    ensures CountsRemaining(arcs, remaining[n := remaining[n] - 1], before, current, done + {n})
  {
    var remaining', done' := remaining[n := remaining[n] - 1], done + {n};
    forall k ensures CountsRemainingAt(arcs, remaining', before, current, done', k) {
      assert CountsRemainingAt(arcs, remaining, before, current, done, k);
      DiscountCountsAt(arcs, remaining, before, current, done, n, k);
    }
  }

  /** An operation whose predecessors are all queued can be queued. */
  lemma PushKeepsOrder(arcs: seq<Arc>, queue: seq<Key>, n: Key)
    requires PredecessorsFirst(arcs, queue)
    requires forall p :: p in Predecessors(arcs, n) ==> p in queue
    ensures PredecessorsFirst(arcs, queue + [n])
  {
    var queue' := queue + [n];
    forall i ensures PrecededAt(arcs, queue', i) {
      if 0 <= i < |queue| {
        assert PrecededAt(arcs, queue, i) && queue'[..i] == queue[..i];
      } else if i == |queue| {
        assert queue'[..i] == queue;
        forall p | Edge(arcs, p, n) ensures p in queue { IsPredecessor(arcs, p, n); }
      }
    }
  }

  /** Discounting one edge of `current`, and queueing its target when it was the last. */
  lemma DiscountKeepsQueue(arcs: seq<Arc>, remaining: map<Key, int>, queue: seq<Key>, n: Key)
    requires QueueIsReady(arcs, remaining, queue) && n in remaining && remaining[n] >= 1
    requires remaining[n] == 1 ==> forall p :: p in Predecessors(arcs, n) ==> p in queue
    ensures QueueIsReady(arcs, remaining[n := remaining[n] - 1], if remaining[n] == 1 then queue + [n] else queue)
  {
    assert n !in queue;
    if remaining[n] == 1 {
      PushKeepsOrder(arcs, queue, n);
    }
  }

  /** When the last edge is discounted, every predecessor has been removed. */
  lemma LastEdge(arcs: seq<Arc>, before: set<Key>, current: Key, n: Key)
    requires (current, n) in arcs && current !in before && |Predecessors(arcs, n) - before| == 1
    ensures Predecessors(arcs, n) <= before + {current}
  {
    IsPredecessor(arcs, current, n);
    var waiting := Predecessors(arcs, n) - before;
    assert current in waiting && |waiting - {current}| == 0;
  }

  /** When all edges of `current` are discounted, the counts no longer include it anywhere. */
  lemma AllDiscounted(arcs: seq<Arc>, remaining: map<Key, int>, before: set<Key>, current: Key, done: set<Key>)
    requires CountsRemaining(arcs, remaining, before, current, done)
    requires forall n :: (current, n) in arcs ==> n in done
    ensures forall any :: CountsRemaining(arcs, remaining, before + {current}, any, {})
  {
    forall any, n ensures CountsRemainingAt(arcs, remaining, before + {current}, any, {}, n) {
      assert CountsRemainingAt(arcs, remaining, before, current, done, n);
      if n !in done {
        IsPredecessor(arcs, current, n);
        assert Predecessors(arcs, n) - before == Predecessors(arcs, n) - (before + {current});
      }
    }
  }

  ghost function Members(keys: seq<Key>): set<Key> {
    set k | k in keys
  }

  lemma MembersPush(keys: seq<Key>, i: nat)
    requires i < |keys|
    ensures Members(keys[..i + 1]) == Members(keys[..i]) + {keys[i]}
    ensures Distinct(keys) ==> keys[i] !in Members(keys[..i])
  {
    assert keys[..i + 1] == keys[..i] + [keys[i]];
  }

  /** What holds whenever the inner loop starts a turn. */
  ghost predicate Discounting(arcs: seq<Arc>, remaining: map<Key, int>, queue: seq<Key>, removed: set<Key>, current: Key, done: set<Key>) {
    && QueueIsReady(arcs, remaining, queue)
    && CountsRemaining(arcs, remaining, removed - {current}, current, done)
    && current in removed && (forall k :: k in removed ==> k in queue)
  }

  lemma DiscountTurn(arcs: seq<Arc>, remaining: map<Key, int>, queue: seq<Key>, removed: set<Key>, current: Key, done: set<Key>, n: Key)
    requires Discounting(arcs, remaining, queue, removed, current, done)
    requires (current, n) in arcs && n !in done
    ensures n in remaining && n !in removed
    ensures Discounting(arcs, remaining[n := remaining[n] - 1], if remaining[n] == 1 then queue + [n] else queue,
                        removed, current, done + {n})
  {
    var before := removed - {current};
    assert before + {current} == removed;
    NeighborIsWaiting(arcs, remaining, queue, before, current, done, n);
    assert CountsRemainingAt(arcs, remaining, before, current, done, n);
    if remaining[n] == 1 { LastEdge(arcs, before, current, n); }
    DiscountCounts(arcs, remaining, before, current, done, n);
    DiscountKeepsQueue(arcs, remaining, queue, n);
  }

  lemma DiscountEnd(arcs: seq<Arc>, remaining: map<Key, int>, queue: seq<Key>, removed: set<Key>, current: Key, outs: seq<Key>)
    requires Discounting(arcs, remaining, queue, removed, current, Members(outs))
    requires forall n :: (current, n) in arcs ==> n in outs
    ensures forall any :: CountsRemaining(arcs, remaining, removed, any, {})
  {
    assert removed - {current} + {current} == removed;
    AllDiscounted(arcs, remaining, removed - {current}, current, Members(outs));
  }

  /** The inner loop: every edge of `current` is discounted once. */
  method Discount(ghost arcs: seq<Arc>, outs: seq<Key>, remaining: map<Key, int>, queue: seq<Key>, removed: set<Key>, current: Key)
    returns (remaining': map<Key, int>, queue': seq<Key>)
    requires Discounting(arcs, remaining, queue, removed, current, {})
    requires Distinct(outs) && forall n :: n in outs <==> (current, n) in arcs
    ensures QueueIsReady(arcs, remaining', queue') && queue <= queue'
    ensures forall any :: CountsRemaining(arcs, remaining', removed, any, {})
  {
    remaining', queue' := remaining, queue;
    assert Members(outs[..0]) == {};
    for j := 0 to |outs|
      invariant queue <= queue' && Discounting(arcs, remaining', queue', removed, current, Members(outs[..j]))
    {
      var neighbor := outs[j];
      MembersPush(outs, j);
      DiscountTurn(arcs, remaining', queue', removed, current, Members(outs[..j]), neighbor);
      if neighbor !in removed {
        var next := remaining'[neighbor] - 1;
        remaining' := remaining'[neighbor := next];
        if next == 0 { queue' := queue' + [neighbor]; }
      }
    }
    assert outs[..|outs|] == outs;
    DiscountEnd(arcs, remaining', queue', removed, current, outs);
  }

  /** The operations that wait for nothing at the start, in code-unit order. */
  lemma RootsAreReady(arcs: seq<Arc>, ix: Index, queue: seq<Key>)
    requires Indexes(arcs, ix)
    requires queue == SortBy(Filter(ix.nodes, n => n in ix.inDegree && ix.inDegree[n] == 0), CodeUnitLe)
    ensures QueueIsReady(arcs, ix.inDegree, queue)
    ensures forall any :: CountsRemaining(arcs, ix.inDegree, {}, any, {})
  {
    var roots := Filter(ix.nodes, n => n in ix.inDegree && ix.inDegree[n] == 0);
    FilterDistinct(ix.nodes, n => n in ix.inDegree && ix.inDegree[n] == 0);
    SortByPermutes(roots, CodeUnitLe);
    DistinctPermutation(roots, queue);
    SortByMembers(roots, CodeUnitLe);
    forall i, p | 0 <= i < |queue| ensures !Edge(arcs, p, queue[i]) {
      IsPredecessor(arcs, p, queue[i]);
      assert queue[i] in roots && CountsPredecessorsAt(arcs, ix.inDegree, queue[i]);
    }
    forall any, n ensures CountsRemainingAt(arcs, ix.inDegree, {}, any, {}, n) {
      assert CountsPredecessorsAt(arcs, ix.inDegree, n);
      assert Predecessors(arcs, n) - {} == Predecessors(arcs, n);
    }
  }

  /** Taking the next operation off the queue meets what `Discount` asks. */
  lemma TakeNext(arcs: seq<Arc>, remaining: map<Key, int>, queue: seq<Key>, cursor: nat)
    requires QueueIsReady(arcs, remaining, queue) && cursor < |queue|
    requires forall any :: CountsRemaining(arcs, remaining, Members(queue[..cursor]), any, {})
    ensures var removed := Members(queue[..cursor]) + {queue[cursor]};
            && removed == Members(queue[..cursor + 1])
            && Discounting(arcs, remaining, queue, removed, queue[cursor], {})
    ensures queue[cursor] in Nodes(arcs) && cursor < |Nodes(arcs)|
  {
    MembersPush(queue, cursor);
    QueueFits(arcs, remaining, queue);
    assert Members(queue[..cursor]) + {queue[cursor]} - {queue[cursor]} == Members(queue[..cursor]);
  }

  /** What holds whenever the queue loop tests its condition. */
  ghost predicate Eliminating(arcs: seq<Arc>, remaining: map<Key, int>, queue: seq<Key>, cursor: nat, removed: set<Key>) {
    && cursor <= |queue| && removed == Members(queue[..cursor])
    && QueueIsReady(arcs, remaining, queue)
    && forall any :: CountsRemaining(arcs, remaining, removed, any, {})
  }

  lemma SuccessorsOf(arcs: seq<Arc>, ix: Index, k: Key)
    requires Indexes(arcs, ix) && k in Nodes(arcs)
    ensures k in ix.outgoing && Distinct(ix.outgoing[k]) && forall n :: n in ix.outgoing[k] <==> (k, n) in arcs
  {
  }

  lemma AdvanceKeeps(arcs: seq<Arc>, remaining: map<Key, int>, queue: seq<Key>, queue': seq<Key>, cursor: nat, removed: set<Key>)
    requires cursor < |queue| && queue <= queue' && QueueIsReady(arcs, remaining, queue')
    requires removed == Members(queue[..cursor + 1]) && forall any :: CountsRemaining(arcs, remaining, removed, any, {})
    ensures Eliminating(arcs, remaining, queue', cursor + 1, removed)
  {
    assert queue'[..cursor + 1] == queue[..cursor + 1];
  }

  /** One turn of the queue loop. */
  method RemoveNext(ghost arcs: seq<Arc>, ix: Index, remaining: map<Key, int>, queue: seq<Key>, cursor: nat, removed: set<Key>)
    returns (remaining': map<Key, int>, queue': seq<Key>)
    requires Indexes(arcs, ix) && Eliminating(arcs, remaining, queue, cursor, removed) && cursor < |queue|
    ensures Eliminating(arcs, remaining', queue', cursor + 1, removed + {queue[cursor]}) && cursor < |Nodes(arcs)|
  {
    TakeNext(arcs, remaining, queue, cursor);
    var current := queue[cursor];
    SuccessorsOf(arcs, ix, current);
    remaining', queue' := Discount(arcs, ix.outgoing[current], remaining, queue, removed + {current}, current);
    AdvanceKeeps(arcs, remaining', queue, queue', cursor, removed + {current});
  }

  method InitialQueue(ghost arcs: seq<Arc>, ix: Index) returns (queue: seq<Key>)
    requires Indexes(arcs, ix)
    ensures Eliminating(arcs, ix.inDegree, queue, 0, {})
  {
    queue := SortBy(Filter(ix.nodes, n => n in ix.inDegree && ix.inDegree[n] == 0), CodeUnitLe);
    RootsAreReady(arcs, ix, queue);
  }

  /** The queue loop: what it removes is exactly what no cycle reaches. */
  method Eliminate(ghost arcs: seq<Arc>, ix: Index) returns (removed: set<Key>)
    requires Indexes(arcs, ix)
    ensures Nodes(arcs) - removed == Leftover(arcs)
  {
    var remaining := ix.inDegree;
    var queue := InitialQueue(arcs, ix);
    removed := {};
    var cursor := 0;
    while cursor < |queue|
      invariant Eliminating(arcs, remaining, queue, cursor, removed)
      decreases |Nodes(arcs)| - cursor
    {
      var current := queue[cursor];
      remaining, queue := RemoveNext(arcs, ix, remaining, queue, cursor, removed);
      cursor := cursor + 1;
      removed := removed + {current};
    }
    assert queue[..cursor] == queue;
    EliminationIsExact(arcs, remaining, queue);
  }

  lemma QueueFits(arcs: seq<Arc>, remaining: map<Key, int>, queue: seq<Key>)
    requires QueueIsReady(arcs, remaining, queue)
    ensures |queue| <= |Nodes(arcs)|
  {
    DistinctCount(queue, Members(queue));
    SubsetSize(Members(queue), Nodes(arcs));
  }

  lemma {:induction false} SubsetSize<T>(a: set<T>, b: set<T>)
    requires a <= b
    ensures |a| <= |b|
  {
    if x :| x in a {
      SubsetSize(a - {x}, b - {x});
    }
  }

  /** An operation never queued still waits for one that was never queued. */
  lemma WaitsForWaiting(arcs: seq<Arc>, remaining: map<Key, int>, queue: seq<Key>, n: Key)
    requires QueueIsReady(arcs, remaining, queue) && n in Nodes(arcs) && n !in queue
    requires CountsRemaining(arcs, remaining, Members(queue), "", {})
    ensures HasPredecessorIn(arcs, Nodes(arcs) - Members(queue), n)
  {
    var waiting := Predecessors(arcs, n) - Members(queue);
    assert CountsRemainingAt(arcs, remaining, Members(queue), "", {}, n);
    assert waiting != {};
    var p :| p in waiting;
    IsPredecessor(arcs, p, n);
    assert Edge(arcs, p, n);
  }

  lemma NeverQueuedIsLeftover(arcs: seq<Arc>, remaining: map<Key, int>, queue: seq<Key>, n: Key)
    requires QueueIsReady(arcs, remaining, queue) && CountsRemaining(arcs, remaining, Members(queue), "", {})
    requires n in Nodes(arcs) && n !in queue
    ensures n in Leftover(arcs)
  {
    var stuck := Nodes(arcs) - Members(queue);
    assert BackwardClosed(arcs, stuck) by {
      forall k | k in stuck ensures HasPredecessorIn(arcs, stuck, k) {
        WaitsForWaiting(arcs, remaining, queue, k);
      }
    }
    StuckIsDownstream(arcs, stuck, n);
  }

  /** The removed operations come in an order with predecessors first; every other one waits for another. */
  lemma EliminationIsExact(arcs: seq<Arc>, remaining: map<Key, int>, queue: seq<Key>)
    requires QueueIsReady(arcs, remaining, queue)
    requires forall any :: CountsRemaining(arcs, remaining, Members(queue), any, {})
    ensures Nodes(arcs) - Members(queue) == Leftover(arcs)
  {
    assert CountsRemaining(arcs, remaining, Members(queue), "", {});
    forall n | n in Nodes(arcs) ensures n in queue <==> n !in Leftover(arcs) {
      if n in queue {
        OrderedIsNotDownstream(arcs, queue, n);
      } else {
        NeverQueuedIsLeftover(arcs, remaining, queue, n);
      }
    }
  }

  /** The split of the relationships by the leftover operations, and the findings for those cut. */
  method BuildDependencyGraph(rels: seq<Relationship>, le: (string, string) -> bool)
    returns (acyclicRelationships: seq<Relationship>, cycles: seq<Finding>,
             ghost groups: seq<seq<Relationship>>, ghost nodeOf: map<Key, OperationNode>)
    requires TotalPreorder(le)
    ensures acyclicRelationships == Kept(rels)
    ensures IsGrouping(Cut(rels), groups)
    ensures nodeOf.Keys == Nodes(Arcs(rels)) && forall k :: k in nodeOf ==> NodeKey(nodeOf[k]) == k
    ensures multiset(cycles) == multiset(Map(groups, g => DescribeGroup(g, nodeOf)))
    ensures Sorted(cycles, ByJoinedIds(le))
  {
    var ix := IndexOperations(rels);
    var removed := Eliminate(Arcs(rels), ix);
    var cyclicNodeSet := set k | k in ix.nodes && k !in removed;
    assert cyclicNodeSet == Leftover(Arcs(rels));
    acyclicRelationships := [];
    var cyclicRelationships := [];
    for i := 0 to |rels|
      invariant acyclicRelationships == Filter(rels[..i], r => !BothLeftover(rels, r))
      invariant cyclicRelationships == Filter(rels[..i], r => BothLeftover(rels, r))
    {
      FilterPush(rels, i, r => !BothLeftover(rels, r));
      FilterPush(rels, i, r => BothLeftover(rels, r));
      if ProducerKey(rels[i]) in cyclicNodeSet && ConsumerKey(rels[i]) in cyclicNodeSet {
        cyclicRelationships := cyclicRelationships + [rels[i]];
      } else {
        acyclicRelationships := acyclicRelationships + [rels[i]];
      }
    }
    assert rels[..|rels|] == rels;
    nodeOf := ix.nodeOf;
    cycles, groups := Findings(cyclicRelationships, ix.nodeOf, le);
  }
}
