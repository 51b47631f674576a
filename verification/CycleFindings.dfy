/** Cyclic relationships grouped by union-find (backend/src/dependencies/buildDependencyGraph.ts:92-147). */
module CycleFindings {
  import opened Sequences
  import opened Ordering
  import opened Relationships
  import opened Graphs

  // ---- What the groups mean: undirected connection ----

  ghost predicate Linked(arcs: seq<Arc>, a: Key, b: Key) {
    Edge(arcs, a, b) || Edge(arcs, b, a)
  }

  ghost predicate UndirectedWalk(arcs: seq<Arc>, p: seq<Key>) {
    |p| >= 1 && forall i, j :: 0 <= i < |p| - 1 && j == i + 1 ==> Linked(arcs, p[i], p[j])
  }

  ghost predicate Connected(arcs: seq<Arc>, a: Key, b: Key) {
    exists p :: UndirectedWalk(arcs, p) && p[0] == a && p[|p| - 1] == b
  }

  lemma ConnectedReflexive(arcs: seq<Arc>, a: Key)
    ensures Connected(arcs, a, a)
  {
    assert UndirectedWalk(arcs, [a]);
  }

  lemma ConnectedTransitive(arcs: seq<Arc>, a: Key, b: Key, c: Key)
    requires Connected(arcs, a, b) && Connected(arcs, b, c)
    ensures Connected(arcs, a, c)
  {
    var p :| UndirectedWalk(arcs, p) && p[0] == a && p[|p| - 1] == b;
    var q :| UndirectedWalk(arcs, q) && q[0] == b && q[|q| - 1] == c;
    var w := p + q[1..];
    forall i, j | 0 <= i < |w| - 1 && j == i + 1 ensures Linked(arcs, w[i], w[j]) {
      if j < |p| {
        assert Linked(arcs, p[i], p[j]);
      } else {
        assert w[i] == q[i + 1 - |p|] && w[j] == q[j + 1 - |p|];
      }
    }
    assert w[|w| - 1] == c;
  }

  lemma LinkedConnects(arcs: seq<Arc>, a: Key, b: Key)
    requires Linked(arcs, a, b)
    ensures Connected(arcs, a, b)
  {
    assert UndirectedWalk(arcs, [a, b]) && [a, b][0] == a && [a, b][|[a, b]| - 1] == b;
  }

  lemma {:induction false} WalkBackConnects(arcs: seq<Arc>, p: seq<Key>)
    requires UndirectedWalk(arcs, p)
    ensures Connected(arcs, p[|p| - 1], p[0])
    decreases |p|
  {
    if |p| == 1 {
      ConnectedReflexive(arcs, p[0]);
    } else {
      WalkBackConnects(arcs, p[1..]);
      assert Linked(arcs, p[0], p[1]);
      LinkedConnects(arcs, p[1], p[0]);
      ConnectedTransitive(arcs, p[|p| - 1], p[1], p[0]);
    }
  }

  // ---- Union-find with path compression ----

  /** What holds of one key: its parent has the same root, and the measure falls along the link. */
  ghost predicate ForestAt(parent: map<Key, Key>, root: map<Key, Key>, depth: map<Key, nat>, k: Key)
    requires parent.Keys == root.Keys == depth.Keys
  {
    k in parent ==>
      && parent[k] in parent && root[k] in parent
      && root[parent[k]] == root[k]
      && parent[root[k]] == root[k]
      && (parent[k] == k ==> root[k] == k)
      && (parent[k] != k ==> depth[parent[k]] < depth[k])
      && (root[k] != k ==> depth[root[k]] < depth[k])
  }

  /** The parent links form a forest in which `root` names the root of every key. */
  ghost predicate Forest(parent: map<Key, Key>, root: map<Key, Key>, depth: map<Key, nat>) {
    && parent.Keys == root.Keys == depth.Keys
    && forall k {:trigger ForestAt(parent, root, depth, k)} :: ForestAt(parent, root, depth, k)
  }

  /** Path compression keeps the forest and every root. */
  lemma CompressionKeepsForest(parent: map<Key, Key>, root: map<Key, Key>, depth: map<Key, nat>, key: Key)
    requires Forest(parent, root, depth) && key in parent
    ensures ForestAt(parent, root, depth, key) && Forest(parent[key := root[key]], root, depth)
  {
    var compressed := parent[key := root[key]];
    assert ForestAt(parent, root, depth, key);
    assert ForestAt(parent, root, depth, root[key]);
    forall k ensures ForestAt(compressed, root, depth, k) {
      assert ForestAt(parent, root, depth, k);
    }
  }

  ghost function MergedRoots(root: map<Key, Key>, a: Key, b: Key): map<Key, Key> {
    map k | k in root :: if root[k] == a then b else root[k]
  }

  ghost function MergedDepths(root: map<Key, Key>, depth: map<Key, nat>, a: Key, b: Key): map<Key, nat>
    requires root.Keys == depth.Keys && b in depth
  {
    map k | k in depth :: if root[k] == a then depth[k] + depth[b] + 1 else depth[k]
  }

  /** Hanging one root below another keeps the forest and merges exactly two classes. */
  lemma UnionKeepsForest(parent: map<Key, Key>, root: map<Key, Key>, depth: map<Key, nat>, a: Key, b: Key)
    requires Forest(parent, root, depth)
    requires a in parent && b in parent && root[a] == a && root[b] == b && a != b
    ensures Forest(parent[a := b], MergedRoots(root, a, b), MergedDepths(root, depth, a, b))
  {
    var parent', root', depth' := parent[a := b], MergedRoots(root, a, b), MergedDepths(root, depth, a, b);
    assert ForestAt(parent, root, depth, b);
    forall k ensures ForestAt(parent', root', depth', k) {
      assert ForestAt(parent, root, depth, k);
      if k in parent { assert ForestAt(parent, root, depth, root[k]); }
    }
  }

  /**
   * The `parent` map with its `find` and `union`. The ghost fields name the root of every key and a
   * measure that falls along every parent link.
   */
  class DisjointSets {
    var parent: map<Key, Key>
    ghost var root: map<Key, Key>
    ghost var depth: map<Key, nat>

    ghost predicate Valid()
      reads this
    {
      Forest(parent, root, depth)
    }

    constructor ()
      ensures Valid() && parent == map[] && root == map[]
    {
      parent, root, depth := map[], map[], map[];
    }

    method Add(key: Key)
      requires Valid() && key !in parent
      modifies this
      ensures Valid() && parent == old(parent)[key := key] && root == old(root)[key := key]
    {
      ghost var p, r, d := parent, root, depth;
      parent := parent[key := key];
      root := root[key := key];
      depth := depth[key := 0];
      forall k ensures ForestAt(parent, root, depth, k) {
        assert ForestAt(p, r, d, k);
      }
    }

    /** Walks to the root and points `key` straight at it; what `Find` answers for any key does not change. */
    method Find(key: Key) returns (r: Key)
      requires Valid() && key in parent
      modifies this`parent
      ensures Valid() && r == root[key] && r in parent
      ensures root[r] == r && parent == old(parent)[key := r]
    {
      r := key;
      while parent[r] != r
        invariant r in parent && root[r] == root[key]
        decreases depth[r]
      {
        assert ForestAt(parent, root, depth, r);
        r := parent[r];
      }
      assert ForestAt(parent, root, depth, r);
      CompressionKeepsForest(parent, root, depth, key);
      parent := parent[key := r];
    }

    /** Hangs the root of `a` below the root of `b`: exactly the two classes of `a` and `b` become one. */
    method Union(a: Key, b: Key)
      requires Valid() && a in parent && b in parent
      modifies this
      ensures Valid() && parent.Keys == old(parent.Keys)
      ensures root == MergedRoots(old(root), old(root[a]), old(root[b]))
    {
      var rootA := Find(a);
      var rootB := Find(b);
      if rootA != rootB {
        UnionKeepsForest(parent, root, depth, rootA, rootB);
        parent := parent[rootA := rootB];
        depth := MergedDepths(root, depth, rootA, rootB);
        root := MergedRoots(root, rootA, rootB);
      } else {
        assert root == MergedRoots(root, rootA, rootB);
      }
    }
  }

  // ---- Grouping ----

  /** Relationships are in one component when their operations are connected. */
  ghost predicate SameComponent(rels: seq<Relationship>, r: Relationship, s: Relationship) {
    Connected(Arcs(rels), ProducerKey(r), ProducerKey(s))
  }

  /** The relationships connected to `r`, in input order. */
  ghost function Component(rels: seq<Relationship>, r: Relationship): seq<Relationship> {
    Filter(rels, s => SameComponent(rels, r, s))
  }

  /** One group per component: no component is split, merged with another, or left out. */
  ghost predicate IsGrouping(rels: seq<Relationship>, groups: seq<seq<Relationship>>) {
    && (forall g :: 0 <= g < |groups| ==> groups[g] != [] && groups[g] == Component(rels, groups[g][0]))
    && (forall g, h :: 0 <= g < h < |groups| ==> !SameComponent(rels, groups[g][0], groups[h][0]))
    && (forall r :: r in rels ==> exists g :: 0 <= g < |groups| && r in groups[g])
  }

  /** The roots say the truth about connection, for every pair of keys. */
  ghost predicate RootsAreComponents(arcs: seq<Arc>, root: map<Key, Key>) {
    && Nodes(arcs) <= root.Keys
    && (forall a, b :: a in root && b in root ==> (root[a] == root[b] <==> Connected(arcs, a, b)))
  }

  ghost predicate RootsAreSound(arcs: seq<Arc>, root: map<Key, Key>) {
    forall a, b :: a in root && b in root && root[a] == root[b] ==> Connected(arcs, a, b)
  }

  /** Merging the classes of the two ends of an arc joins only connected keys. */
  lemma MergeIsSound(arcs: seq<Arc>, root: map<Key, Key>, p: Key, c: Key)
    requires RootsAreSound(arcs, root) && p in root && c in root && Edge(arcs, p, c)
    ensures RootsAreSound(arcs, MergedRoots(root, root[p], root[c]))
  {
    var merged := MergedRoots(root, root[p], root[c]);
    LinkedConnects(arcs, p, c);
    LinkedConnects(arcs, c, p);
    forall a, b | a in merged && b in merged && merged[a] == merged[b] ensures Connected(arcs, a, b) {
      if root[a] != root[b] {
        if root[a] == root[p] {
          ConnectedTransitive(arcs, a, p, c);
          ConnectedTransitive(arcs, a, c, b);
        } else {
          ConnectedTransitive(arcs, a, c, p);
          ConnectedTransitive(arcs, a, p, b);
        }
      }
    }
  }

  /** A new key is its own class, and no other key answers it. */
  lemma AddIsSound(arcs: seq<Arc>, parent: map<Key, Key>, root: map<Key, Key>, depth: map<Key, nat>, key: Key)
    requires Forest(parent, root, depth) && RootsAreSound(arcs, root) && key !in root
    ensures RootsAreSound(arcs, root[key := key])
  {
    ConnectedReflexive(arcs, key);
    var added := root[key := key];
    forall a, b | a in added && b in added && added[a] == added[b] ensures Connected(arcs, a, b) {
      if a != key { assert ForestAt(parent, root, depth, a); }
      if b != key { assert ForestAt(parent, root, depth, b); }
    }
  }

  /** Both ends of every one of these arcs are known and in one class. */
  ghost predicate United(arcs: seq<Arc>, root: map<Key, Key>) {
    forall e :: e in arcs ==> e.0 in root && e.1 in root && root[e.0] == root[e.1]
  }

  /** If every arc has both ends in one class, every walk stays in one class. */
  lemma {:induction false} WalkStaysInClass(arcs: seq<Arc>, root: map<Key, Key>, p: seq<Key>)
    requires United(arcs, root)
    requires UndirectedWalk(arcs, p) && p[0] in root
    ensures p[|p| - 1] in root && root[p[0]] == root[p[|p| - 1]]
    decreases |p|
  {
    if |p| > 1 {
      assert Linked(arcs, p[0], p[1]);
      WalkStaysInClass(arcs, root, p[1..]);
    }
  }

  lemma UnitedRootsAreComponents(arcs: seq<Arc>, root: map<Key, Key>)
    requires RootsAreSound(arcs, root) && United(arcs, root)
    ensures RootsAreComponents(arcs, root)
  {
    forall a, b | a in root && b in root && Connected(arcs, a, b) ensures root[a] == root[b] {
      var w :| UndirectedWalk(arcs, w) && w[0] == a && w[|w| - 1] == b;
      WalkStaysInClass(arcs, root, w);
    }
  }

  lemma MergeKeepsUnited(done: seq<Arc>, root: map<Key, Key>, e: Arc)
    requires United(done, root) && e.0 in root && e.1 in root
    ensures United(done + [e], MergedRoots(root, root[e.0], root[e.1]))
  {
  }

  /** `if (!parent.has(key)) parent.set(key, key)` */
  method MakeKnown(ghost arcs: seq<Arc>, ghost done: seq<Arc>, sets: DisjointSets, key: Key)
    requires sets.Valid() && RootsAreSound(arcs, sets.root) && United(done, sets.root)
    modifies sets
    ensures sets.Valid() && RootsAreSound(arcs, sets.root) && United(done, sets.root)
    ensures sets.root.Keys == old(sets.root.Keys) + {key}
  {
    if key !in sets.parent {
      AddIsSound(arcs, sets.parent, sets.root, sets.depth, key);
      sets.Add(key);
    }
  }

  /** One turn of the first loop: both ends are made known and their classes become one. */
  method Unite(ghost arcs: seq<Arc>, ghost done: seq<Arc>, sets: DisjointSets, producer: Key, consumer: Key)
    requires sets.Valid() && RootsAreSound(arcs, sets.root) && United(done, sets.root) && (producer, consumer) in arcs
    modifies sets
    ensures sets.Valid() && RootsAreSound(arcs, sets.root) && United(done + [(producer, consumer)], sets.root)
  {
    MakeKnown(arcs, done, sets, producer);
    MakeKnown(arcs, done, sets, consumer);
    MergeIsSound(arcs, sets.root, producer, consumer);
    MergeKeepsUnited(done, sets.root, (producer, consumer));
    sets.Union(producer, consumer);
  }

  /** The first loop: union both ends of every relationship. */
  method UnionAll(rels: seq<Relationship>) returns (sets: DisjointSets)
    ensures fresh(sets) && sets.Valid() && RootsAreComponents(Arcs(rels), sets.root)
  {
    ghost var arcs := Arcs(rels);
    sets := new DisjointSets();
    for i := 0 to |rels|
      invariant sets.Valid() && fresh(sets)
      invariant RootsAreSound(arcs, sets.root) && United(arcs[..i], sets.root)
    {
      assert arcs[i] == ArcOf(rels[i]) && arcs[..i + 1] == arcs[..i] + [arcs[i]];
      Unite(arcs, arcs[..i], sets, ProducerKey(rels[i]), ConsumerKey(rels[i]));
    }
    assert arcs[..|rels|] == arcs;
    UnitedRootsAreComponents(arcs, sets.root);
  }

  ghost function ByRoot(rels: seq<Relationship>, root: map<Key, Key>, k: Key): seq<Relationship> {
    Filter(rels, (r: Relationship) => ProducerKey(r) in root && root[ProducerKey(r)] == k)
  }

  /** The component map after the relationships `done`: each root's group holds its relationships in order. */
  ghost predicate GroupedByRoot(done: seq<Relationship>, root: map<Key, Key>, roots: seq<Key>, groupOf: map<Key, seq<Relationship>>) {
    && Distinct(roots)
    && (forall k :: k in roots <==> k in groupOf)
    && (forall k :: k in groupOf ==> groupOf[k] != [] && groupOf[k] == ByRoot(done, root, k))
    && (forall r :: r in done ==> ProducerKey(r) in root && root[ProducerKey(r)] in groupOf)
  }

  lemma GroupPush(rels: seq<Relationship>, i: nat, root: map<Key, Key>, k: Key)
    requires i < |rels| && ProducerKey(rels[i]) in root
    ensures ByRoot(rels[..i + 1], root, k) ==
            ByRoot(rels[..i], root, k) + (if root[ProducerKey(rels[i])] == k then [rels[i]] else [])
  {
    FilterPush(rels, i, (r: Relationship) => ProducerKey(r) in root && root[ProducerKey(r)] == k);
  }

  /** When the roots are the components, the groups by root are the components. */
  lemma RootGroupsAreComponents(rels: seq<Relationship>, root: map<Key, Key>, roots: seq<Key>, groupOf: map<Key, seq<Relationship>>)
    requires RootsAreComponents(Arcs(rels), root) && GroupedByRoot(rels, root, roots, groupOf)
    ensures IsGrouping(rels, seq(|roots|, g requires 0 <= g < |roots| => groupOf[roots[g]]))
  {
    var groups := seq(|roots|, g requires 0 <= g < |roots| => groupOf[roots[g]]);
    forall g | 0 <= g < |groups| ensures groups[g] != [] && groups[g] == Component(rels, groups[g][0]) {
      var k := roots[g];
      var head := groups[g][0];
      assert head in ByRoot(rels, root, k);
      FilterSame(rels, (r: Relationship) => ProducerKey(r) in root && root[ProducerKey(r)] == k,
                 s => SameComponent(rels, head, s));
    }
    forall g, h | 0 <= g < h < |groups| ensures !SameComponent(rels, groups[g][0], groups[h][0]) {
      assert groups[g][0] in ByRoot(rels, root, roots[g]);
      assert groups[h][0] in ByRoot(rels, root, roots[h]);
    }
    forall r | r in rels ensures exists g :: 0 <= g < |groups| && r in groups[g] {
      var k := root[ProducerKey(r)];
      var g :| 0 <= g < |roots| && roots[g] == k;
      assert r in ByRoot(rels, root, k);
      assert r in groups[g];
    }
  }

  /** `group.push(relationship)`, or a new group when the root has none yet. */
  function Collect(roots: seq<Key>, groupOf: map<Key, seq<Relationship>>, k: Key, r: Relationship)
    : (seq<Key>, map<Key, seq<Relationship>>)
  {
    if k in groupOf then (roots, groupOf[k := groupOf[k] + [r]])
    else (roots + [k], groupOf[k := [r]])
  }

  lemma CollectKeepsGroups(rels: seq<Relationship>, i: nat, root: map<Key, Key>, roots: seq<Key>, groupOf: map<Key, seq<Relationship>>)
    requires i < |rels| && ProducerKey(rels[i]) in root
    requires GroupedByRoot(rels[..i], root, roots, groupOf)
    ensures var (roots', groupOf') := Collect(roots, groupOf, root[ProducerKey(rels[i])], rels[i]);
            GroupedByRoot(rels[..i + 1], root, roots', groupOf')
  {
    var k := root[ProducerKey(rels[i])];
    var (roots', groupOf') := Collect(roots, groupOf, k, rels[i]);
    assert rels[..i + 1] == rels[..i] + [rels[i]];
    forall j | j in groupOf' ensures groupOf'[j] != [] && groupOf'[j] == ByRoot(rels[..i + 1], root, j) {
      GroupPush(rels, i, root, j);
      if k !in groupOf { NothingBefore(rels[..i], root, groupOf.Keys, k); }
    }
  }

  lemma NothingBefore(done: seq<Relationship>, root: map<Key, Key>, known: set<Key>, k: Key)
    requires k !in known && forall r :: r in done ==> ProducerKey(r) in root && root[ProducerKey(r)] in known
    ensures ByRoot(done, root, k) == []
  {
    FilterNone(done, (r: Relationship) => ProducerKey(r) in root && root[ProducerKey(r)] == k);
  }

  /** The two loops of the grouping: union all ends, then collect the relationships of each root in order. */
  method GroupCyclic(rels: seq<Relationship>) returns (groups: seq<seq<Relationship>>)
    ensures IsGrouping(rels, groups)
  {
    var sets := UnionAll(rels);
    ghost var root := sets.root;
    var roots: seq<Key>, groupOf: map<Key, seq<Relationship>> := [], map[];
    for i := 0 to |rels|
      invariant sets.Valid() && fresh(sets) && sets.root == root
      invariant GroupedByRoot(rels[..i], root, roots, groupOf)
    {
      CollectKeepsGroups(rels, i, root, roots, groupOf);
      var k := sets.Find(ProducerKey(rels[i]));
      var next := Collect(roots, groupOf, k, rels[i]);
      roots, groupOf := next.0, next.1;
    }
    assert rels[..|rels|] == rels;
    RootGroupsAreComponents(rels, root, roots, groupOf);
    groups := seq(|roots|, g requires 0 <= g < |roots| => groupOf[roots[g]]);
  }

  // ---- Findings ----

  datatype Finding = Finding(relationshipIds: seq<string>, operations: seq<OperationNode>)

  lemma AddKeyKeepsDistinct(keys: seq<Key>, k: Key)
    requires Distinct(keys)
    ensures Distinct(AddKey(keys, k)) && forall j :: j in AddKey(keys, k) <==> j in keys || j == k
  {
  }

  lemma NodesCons(group: seq<Relationship>)
    requires group != []
    ensures Nodes(Arcs(group)) == {ProducerKey(group[0]), ConsumerKey(group[0])} + Nodes(Arcs(group[1..]))
  {
    assert group == [group[0]] + group[1..];
  }

  /** The insertion-ordered set of the operations a group touches. */
  function InvolvedKeys(group: seq<Relationship>, seen: seq<Key>): (keys: seq<Key>)
    requires Distinct(seen)
    ensures Distinct(keys)
    ensures forall k :: k in keys <==> k in seen || k in Nodes(Arcs(group))
  {
    if group == [] then seen
    else
      var withProducer := AddKey(seen, ProducerKey(group[0]));
      AddKeyKeepsDistinct(seen, ProducerKey(group[0]));
      var withConsumer := AddKey(withProducer, ConsumerKey(group[0]));
      AddKeyKeepsDistinct(withProducer, ConsumerKey(group[0]));
      NodesCons(group);
      InvolvedKeys(group[1..], withConsumer)
  }

  function NamedOperations(keys: seq<Key>, nodeOf: map<Key, OperationNode>): seq<OperationNode> {
    Map(Filter(keys, k => k in nodeOf), k => if k in nodeOf then nodeOf[k] else OperationNode("", ""))
  }

  function DescribeGroup(group: seq<Relationship>, nodeOf: map<Key, OperationNode>): (f: Finding) {
    var ids := SortBy(Map(group, (r: Relationship) => r.id), CodeUnitLe);
    var keys := SortBy(InvolvedKeys(group, []), CodeUnitLe);
    Finding(ids, NamedOperations(keys, nodeOf))
  }

  function ByJoinedIds(le: (string, string) -> bool): (Finding, Finding) -> bool {
    (a: Finding, b: Finding) => le(Join(a.relationshipIds, ","), Join(b.relationshipIds, ","))
  }

  /** `groupCyclicRelationshipsIntoFindings`: one finding per component, in the order of their joined ids. */
  method Findings(rels: seq<Relationship>, nodeOf: map<Key, OperationNode>, le: (string, string) -> bool)
    returns (findings: seq<Finding>, ghost groups: seq<seq<Relationship>>)
    requires TotalPreorder(le)
    ensures IsGrouping(rels, groups)
    ensures multiset(findings) == multiset(Map(groups, g => DescribeGroup(g, nodeOf)))
    ensures Sorted(findings, ByJoinedIds(le))
  {
    var parts := [];
    if rels != [] {
      parts := GroupCyclic(rels);
    }
    groups := parts;
    var order := ByJoinedIds(le);
    KeyedPreorder(le, (f: Finding) => Join(f.relationshipIds, ","), order);
    SortByPermutes(Map(parts, g => DescribeGroup(g, nodeOf)), order);
    SortBySorted(Map(parts, g => DescribeGroup(g, nodeOf)), order);
    findings := SortBy(Map(parts, g => DescribeGroup(g, nodeOf)), order);
  }

  /** The sorted operation keys of a group: each touched operation once. */
  lemma SortedInvolvedKeys(group: seq<Relationship>) returns (keys: seq<Key>)
    ensures keys == SortBy(InvolvedKeys(group, []), CodeUnitLe)
    ensures Distinct(keys) && Sorted(keys, CodeUnitLe) && |keys| == |Nodes(Arcs(group))|
    ensures forall k :: k in keys <==> k in Nodes(Arcs(group))
  {
    keys := SortBy(InvolvedKeys(group, []), CodeUnitLe);
    SortByMembers(InvolvedKeys(group, []), CodeUnitLe);
    CodeUnitOrder();
    SortBySorted(InvolvedKeys(group, []), CodeUnitLe);
    SortByPermutes(InvolvedKeys(group, []), CodeUnitLe);
    DistinctPermutation(InvolvedKeys(group, []), keys);
    DistinctCount(keys, Nodes(Arcs(group)));
  }

  lemma NamedInOrder(keys: seq<Key>, nodeOf: map<Key, OperationNode>)
    requires Distinct(keys) && forall k :: k in keys ==> k in nodeOf && NodeKey(nodeOf[k]) == k
    ensures var operations := NamedOperations(keys, nodeOf);
            && |operations| == |keys| && Map(operations, NodeKey) == keys
            && (forall i :: 0 <= i < |keys| ==> operations[i] == nodeOf[keys[i]])
            && Distinct(operations)
  {
    FilterAll(keys, k => k in nodeOf);
    var operations := NamedOperations(keys, nodeOf);
    assert forall i :: 0 <= i < |keys| ==> operations[i] == nodeOf[keys[i]] && NodeKey(operations[i]) == keys[i];
    forall i, j | 0 <= i < j < |keys| ensures operations[i] != operations[j] {
      assert NodeKey(operations[i]) == keys[i] && NodeKey(operations[j]) == keys[j];
    }
  }

  /** A finding names every relationship of its group and exactly the operations they touch, each once, in key order. */
  lemma FindingIsComplete(group: seq<Relationship>, nodeOf: map<Key, OperationNode>)
    requires forall k :: k in Nodes(Arcs(group)) ==> k in nodeOf && NodeKey(nodeOf[k]) == k
    ensures var f := DescribeGroup(group, nodeOf);
            && multiset(f.relationshipIds) == multiset(Map(group, (r: Relationship) => r.id)) && Sorted(f.relationshipIds, CodeUnitLe)
            && |f.operations| == |Nodes(Arcs(group))| && Distinct(f.operations)
            && (forall k :: k in Nodes(Arcs(group)) ==> nodeOf[k] in f.operations)
            && Sorted(Map(f.operations, NodeKey), CodeUnitLe)
  {
    var keys := SortedInvolvedKeys(group);
    NamedInOrder(keys, nodeOf);
    CodeUnitOrder();
    SortBySorted(Map(group, (r: Relationship) => r.id), CodeUnitLe);
    SortByPermutes(Map(group, (r: Relationship) => r.id), CodeUnitLe);
    var f := DescribeGroup(group, nodeOf);
    forall k | k in Nodes(Arcs(group)) ensures nodeOf[k] in f.operations {
      var i :| 0 <= i < |keys| && keys[i] == k;
      assert f.operations[i] == nodeOf[k];
    }
  }

  /** Findings are listed by their relationship ids, joined with commas. */
  lemma FindingsAreInOrder(findings: seq<Finding>, le: (string, string) -> bool)
    requires Sorted(findings, ByJoinedIds(le))
    ensures forall i, j :: 0 <= i < j < |findings| ==> le(Join(findings[i].relationshipIds, ","), Join(findings[j].relationshipIds, ","))
  {
    forall i, j | 0 <= i < j < |findings| ensures le(Join(findings[i].relationshipIds, ","), Join(findings[j].relationshipIds, ",")) {
      assert ByJoinedIds(le)(findings[i], findings[j]);
    }
  }
}
