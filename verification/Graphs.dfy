/** Walks, cycles and reachability in a directed graph given by a list of arcs. */
module Graphs {
  type Key = string
  type Arc = (Key, Key)

  ghost predicate Edge(arcs: seq<Arc>, a: Key, b: Key) {
    (a, b) in arcs
  }

  ghost predicate Walk(arcs: seq<Arc>, p: seq<Key>) {
    |p| >= 1 && forall i, j :: 0 <= i < |p| - 1 && j == i + 1 ==> Edge(arcs, p[i], p[j])
  }

  ghost predicate Reaches(arcs: seq<Arc>, a: Key, b: Key) {
    exists p :: Walk(arcs, p) && p[0] == a && p[|p| - 1] == b
  }

  /** `k` lies on a directed cycle; a self-loop is the walk [k, k]. */
  ghost predicate OnCycle(arcs: seq<Arc>, k: Key) {
    exists p :: Walk(arcs, p) && |p| >= 2 && p[0] == k && p[|p| - 1] == k
  }

  ghost predicate DownstreamOfCycle(arcs: seq<Arc>, k: Key) {
    exists c :: OnCycle(arcs, c) && Reaches(arcs, c, k)
  }

  ghost predicate Acyclic(arcs: seq<Arc>) {
    forall k :: !OnCycle(arcs, k)
  }

  ghost function Nodes(arcs: seq<Arc>): set<Key> {
    (set e | e in arcs :: e.0) + (set e | e in arcs :: e.1)
  }

  ghost function Predecessors(arcs: seq<Arc>, n: Key): set<Key> {
    set e | e in arcs && e.1 == n :: e.0
  }

  lemma DownstreamStep(arcs: seq<Arc>, a: Key, b: Key)
    requires DownstreamOfCycle(arcs, a) && Edge(arcs, a, b)
    ensures DownstreamOfCycle(arcs, b)
  {
    var c :| OnCycle(arcs, c) && Reaches(arcs, c, a);
    var p :| Walk(arcs, p) && p[0] == c && p[|p| - 1] == a;
    assert (p + [b])[0] == c && (p + [b])[|p + [b]| - 1] == b;
  }

  lemma OnCycleIsDownstream(arcs: seq<Arc>, k: Key)
    requires OnCycle(arcs, k)
    ensures DownstreamOfCycle(arcs, k)
  {
    assert Walk(arcs, [k]) && [k][0] == k && [k][|[k]| - 1] == k;
    assert Reaches(arcs, k, k);
  }

  ghost predicate PrecededAt(arcs: seq<Arc>, order: seq<Key>, i: int) {
    0 <= i < |order| ==> forall p :: Edge(arcs, p, order[i]) ==> p in order[..i]
  }

  /** Every operation in `order` comes after all of its predecessors. */
  ghost predicate PredecessorsFirst(arcs: seq<Arc>, order: seq<Key>) {
    forall i {:trigger PrecededAt(arcs, order, i)} :: PrecededAt(arcs, order, i)
  }

  lemma {:induction false} WalkStaysInOrder(arcs: seq<Arc>, order: seq<Key>, p: seq<Key>, i: nat)
    requires PredecessorsFirst(arcs, order) && Walk(arcs, p)
    requires i < |order| && order[i] == p[|p| - 1]
    ensures |p| >= 2 ==> p[0] in order[..i]
    decreases |p|
  {
    if |p| >= 2 {
      var q := p[..|p| - 1];
      assert PrecededAt(arcs, order, i) && Edge(arcs, p[|p| - 2], p[|p| - 1]);
      var j :| 0 <= j < i && order[j] == q[|q| - 1];
      WalkStaysInOrder(arcs, order, q, j);
      if |q| == 1 { assert p[0] == order[j]; }
    }
  }

  /** No operation of such an order lies on a cycle: its own first position would have to precede itself. */
  lemma {:induction false} OrderedIsNotOnCycle(arcs: seq<Arc>, order: seq<Key>, i: nat)
    requires PredecessorsFirst(arcs, order) && i < |order|
    ensures !OnCycle(arcs, order[i])
  {
    if OnCycle(arcs, order[i]) {
      var p :| Walk(arcs, p) && |p| >= 2 && p[0] == order[i] && p[|p| - 1] == order[i];
      WalkStaysInOrder(arcs, order, p, i);
      var j :| 0 <= j < i && order[j] == order[i];
      OrderedIsNotOnCycle(arcs, order, j);
    }
  }

  lemma OrderedIsNotDownstream(arcs: seq<Arc>, order: seq<Key>, k: Key)
    requires PredecessorsFirst(arcs, order) && k in order
    ensures !DownstreamOfCycle(arcs, k)
  {
    if DownstreamOfCycle(arcs, k) {
      var c :| OnCycle(arcs, c) && Reaches(arcs, c, k);
      var p :| Walk(arcs, p) && p[0] == c && p[|p| - 1] == k;
      var i :| 0 <= i < |order| && order[i] == k;
      WalkStaysInOrder(arcs, order, p, i);
      var j :| 0 <= j < |order| && order[j] == c;
      OrderedIsNotOnCycle(arcs, order, j);
    }
  }

  ghost predicate HasPredecessorIn(arcs: seq<Arc>, stuck: set<Key>, n: Key) {
    exists p :: p in stuck && Edge(arcs, p, n)
  }

  /** Every member of `stuck` has a predecessor that is a member too. */
  ghost predicate BackwardClosed(arcs: seq<Arc>, stuck: set<Key>) {
    forall n {:trigger HasPredecessorIn(arcs, stuck, n)} :: n in stuck ==> HasPredecessorIn(arcs, stuck, n)
  }

  /** A walk of any length inside `stuck` that ends at `n`. */
  lemma {:induction false} BackWalk(arcs: seq<Arc>, stuck: set<Key>, n: Key, length: nat) returns (p: seq<Key>)
    requires BackwardClosed(arcs, stuck) && n in stuck
    ensures Walk(arcs, p) && |p| == length + 1 && p[|p| - 1] == n
    ensures forall i :: 0 <= i < |p| ==> p[i] in stuck
  {
    if length == 0 {
      p := [n];
    } else {
      var q := BackWalk(arcs, stuck, n, length - 1);
      assert HasPredecessorIn(arcs, stuck, q[0]);
      var a :| a in stuck && Edge(arcs, a, q[0]);
      p := [a] + q;
    }
  }

  /** The pigeonhole principle for a sequence longer than the set its elements come from. */
  lemma {:induction false} Repetition(p: seq<Key>, s: set<Key>) returns (i: nat, j: nat)
    requires |p| > |s| && forall k :: 0 <= k < |p| ==> p[k] in s
    ensures i < j < |p| && p[i] == p[j]
  {
    if k :| 1 <= k < |p| && p[k] == p[0] {
      i, j := 0, k;
    } else {
      var q := p[1..];
      forall k | 0 <= k < |q| ensures q[k] in s - {p[0]} { assert q[k] == p[k + 1]; }
      i, j := Repetition(q, s - {p[0]});
      i, j := i + 1, j + 1;
    }
  }

  /** Walking backwards for ever inside a finite set closes a cycle, and that cycle reaches the start. */
  lemma StuckIsDownstream(arcs: seq<Arc>, stuck: set<Key>, n: Key)
    requires BackwardClosed(arcs, stuck) && n in stuck
    ensures DownstreamOfCycle(arcs, n)
  {
    var p := BackWalk(arcs, stuck, n, |stuck|);
    var i, j := Repetition(p, stuck);
    var loop, tail := p[i..j + 1], p[j..];
    assert Walk(arcs, loop) && |loop| >= 2 && loop[0] == p[i] && loop[|loop| - 1] == p[j];
    assert OnCycle(arcs, p[j]);
    assert Walk(arcs, tail) && tail[0] == p[j] && tail[|tail| - 1] == n;
    assert Reaches(arcs, p[j], n);
  }

}
