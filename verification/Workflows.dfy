/** Bounded enumeration of workflows (backend/src/dependencies/assembleWorkflows.ts:82-141). */
module Workflows {
  import opened Sequences
  import opened Ordering
  import opened Relationships
  import opened Graphs
  import opened WorkflowBuilding

  // ---- Paths ----

  /** `q` is a path of relationships that starts at operation `key`. */
  ghost predicate Follows(rels: seq<Relationship>, key: Key, q: seq<Relationship>)
    decreases |q|
  {
    q != [] ==> q[0] in rels && ProducerKey(q[0]) == key && Follows(rels, ConsumerKey(q[0]), q[1..])
  }

  /** A path that enters no operation twice and none of `visited`. */
  ghost predicate Trail(rels: seq<Relationship>, key: Key, visited: set<Key>, q: seq<Relationship>)
    decreases |q|
  {
    q != [] ==>
      && q[0] in rels && ProducerKey(q[0]) == key && ConsumerKey(q[0]) !in visited
      && Trail(rels, ConsumerKey(q[0]), visited + {ConsumerKey(q[0])}, q[1..])
  }

  ghost function End(key: Key, q: seq<Relationship>): Key
    decreases |q|
  {
    if q == [] then key else End(ConsumerKey(q[0]), q[1..])
  }

  ghost function Seen(visited: set<Key>, q: seq<Relationship>): set<Key>
    decreases |q|
  {
    if q == [] then visited else Seen(visited + {ConsumerKey(q[0])}, q[1..])
  }

  ghost predicate LeadsOn(rels: seq<Relationship>, key: Key, visited: set<Key>, e: Relationship) {
    e in rels && ProducerKey(e) == key && ConsumerKey(e) !in visited
  }

  /** A trail that has used up its budget or cannot be continued. */
  ghost predicate Maximal(rels: seq<Relationship>, key: Key, visited: set<Key>, q: seq<Relationship>, budget: nat) {
    && Trail(rels, key, visited, q) && |q| <= budget
    && (|q| == budget || forall e :: !LeadsOn(rels, End(key, q), Seen(visited, q), e))
  }

  // ---- The depth-first search as a function ----

  /** Deterministic ordering for outgoing edges at one node. */
  function EdgeSortKey(r: Relationship): string {
    Join([r.consumer.operationMethod, r.consumer.operationPath,
          if r.consumer.location.Some? then r.consumer.location.value else "", r.consumer.field], " ")
  }

  function EdgeOrder(le: (string, string) -> bool): (Relationship, Relationship) -> bool {
    (a: Relationship, b: Relationship) => le(EdgeSortKey(a), EdgeSortKey(b))
  }

  function Outgoing(rels: seq<Relationship>, le: (string, string) -> bool, key: Key): seq<Relationship> {
    SortBy(OfKey(rels, ProducerKey, key), EdgeOrder(le))
  }

  function Unvisited(outs: seq<Relationship>, visited: set<Key>): seq<Relationship> {
    Filter(outs, (e: Relationship) => ConsumerKey(e) !in visited)
  }

  /** Every way on, entered through `e`. */
  function EachAfter(e: Relationship, ways: seq<seq<Relationship>>): seq<seq<Relationship>> {
    Map(ways, q => [e] + q)
  }

  /** The ways the search continues from `key`: `[[]]` when it stops there. */
  function Suffixes(rels: seq<Relationship>, le: (string, string) -> bool, key: Key, visited: set<Key>, budget: nat): seq<seq<Relationship>>
    decreases budget, 1, 0
  {
    var next := Unvisited(Outgoing(rels, le, key), visited);
    if budget == 0 || next == [] then [[]]
    else SuffixesVia(rels, le, next, visited, budget)
  }

  function SuffixesVia(rels: seq<Relationship>, le: (string, string) -> bool, next: seq<Relationship>, visited: set<Key>, budget: nat): seq<seq<Relationship>>
    requires budget > 0
    decreases budget, 0, |next|
  {
    if next == [] then []
    else
      var e := next[0];
      EachAfter(e, Suffixes(rels, le, ConsumerKey(e), visited + {ConsumerKey(e)}, budget - 1))
      + SuffixesVia(rels, le, next[1..], visited, budget)
  }

  /** The relationships at which the search gives up because the step bound is reached. */
  function Oversized(rels: seq<Relationship>, le: (string, string) -> bool, key: Key, visited: set<Key>, budget: nat): seq<Relationship>
    decreases budget, 1, 0
  {
    var next := Unvisited(Outgoing(rels, le, key), visited);
    if budget == 0 then next else OversizedVia(rels, le, next, visited, budget)
  }

  function OversizedVia(rels: seq<Relationship>, le: (string, string) -> bool, next: seq<Relationship>, visited: set<Key>, budget: nat): seq<Relationship>
    requires budget > 0
    decreases budget, 0, |next|
  {
    if next == [] then []
    else
      Oversized(rels, le, ConsumerKey(next[0]), visited + {ConsumerKey(next[0])}, budget - 1)
      + OversizedVia(rels, le, next[1..], visited, budget)
  }

  lemma NextMembers(rels: seq<Relationship>, le: (string, string) -> bool, key: Key, visited: set<Key>)
    ensures forall e :: e in Unvisited(Outgoing(rels, le, key), visited) <==> LeadsOn(rels, key, visited, e)
    ensures Distinct(rels) ==> Distinct(Unvisited(Outgoing(rels, le, key), visited))
  {
    SortByMembers(OfKey(rels, ProducerKey, key), EdgeOrder(le));
    SortByPermutes(OfKey(rels, ProducerKey, key), EdgeOrder(le));
    if Distinct(rels) {
      FilterDistinct(rels, HasKey(ProducerKey, key));
      DistinctPermutation(OfKey(rels, ProducerKey, key), Outgoing(rels, le, key));
      FilterDistinct(Outgoing(rels, le, key), (e: Relationship) => ConsumerKey(e) !in visited);
    }
  }

  // ---- The search finds exactly the maximal trails ----

  lemma MapMember(s: seq<seq<Relationship>>, e: Relationship, p: seq<Relationship>)
    ensures p in EachAfter(e, s) <==> p != [] && p[0] == e && p[1..] in s
  {
    var m := EachAfter(e, s);
    if p in m {
      var i :| 0 <= i < |m| && m[i] == p;
      assert p[1..] == s[i];
    }
    if p != [] && p[0] == e && p[1..] in s {
      var i :| 0 <= i < |s| && s[i] == p[1..];
      assert m[i] == p;
    }
  }

  ghost predicate CanGoOn(rels: seq<Relationship>, key: Key, visited: set<Key>) {
    exists e :: LeadsOn(rels, key, visited, e)
  }

  /** A maximal trail is empty where the search must stop, and otherwise takes one step to a maximal trail. */
  lemma MaximalUnfolds(rels: seq<Relationship>, key: Key, visited: set<Key>, budget: nat, p: seq<Relationship>)
    ensures Maximal(rels, key, visited, p, budget) <==>
            if budget == 0 || !CanGoOn(rels, key, visited) then p == []
            else p != [] && LeadsOn(rels, key, visited, p[0])
                 && Maximal(rels, ConsumerKey(p[0]), visited + {ConsumerKey(p[0])}, p[1..], budget - 1)
  {
    if p == [] {
      assert End(key, p) == key && Seen(visited, p) == visited && Trail(rels, key, visited, p);
    } else {
      assert Trail(rels, key, visited, p) ==> LeadsOn(rels, key, visited, p[0]);
      assert End(key, p) == End(ConsumerKey(p[0]), p[1..]);
      assert Seen(visited, p) == Seen(visited + {ConsumerKey(p[0])}, p[1..]);
    }
  }

  /** The emitted paths below `e`, without `e` itself. */
  function Below(rels: seq<Relationship>, le: (string, string) -> bool, e: Relationship, visited: set<Key>, budget: nat): seq<seq<Relationship>> {
    Suffixes(rels, le, ConsumerKey(e), visited + {ConsumerKey(e)}, budget)
  }

  lemma {:induction false} ViaMember(rels: seq<Relationship>, le: (string, string) -> bool, next: seq<Relationship>, visited: set<Key>, budget: nat, p: seq<Relationship>)
    requires budget > 0
    ensures p in SuffixesVia(rels, le, next, visited, budget) <==>
            p != [] && p[0] in next && p[1..] in Below(rels, le, p[0], visited, budget - 1)
  {
    if next != [] {
      MapMember(Below(rels, le, next[0], visited, budget - 1), next[0], p);
      ViaMember(rels, le, next[1..], visited, budget, p);
    }
  }

  lemma SuffixesUnfold(rels: seq<Relationship>, le: (string, string) -> bool, key: Key, visited: set<Key>, budget: nat, p: seq<Relationship>)
    ensures p in Suffixes(rels, le, key, visited, budget) <==>
            if budget == 0 || !CanGoOn(rels, key, visited) then p == []
            else p != [] && LeadsOn(rels, key, visited, p[0]) && p[1..] in Below(rels, le, p[0], visited, budget - 1)
  {
    NextMembers(rels, le, key, visited);
    var next := Unvisited(Outgoing(rels, le, key), visited);
    if next != [] { assert LeadsOn(rels, key, visited, next[0]); }
    if budget > 0 { ViaMember(rels, le, next, visited, budget, p); }
  }

  /** What the search emits below `key` are exactly the maximal trails from `key`. */
  lemma {:induction false} SuffixesExact(rels: seq<Relationship>, le: (string, string) -> bool, key: Key, visited: set<Key>, budget: nat, p: seq<Relationship>)
    ensures p in Suffixes(rels, le, key, visited, budget) <==> Maximal(rels, key, visited, p, budget)
    decreases budget
  {
    SuffixesUnfold(rels, le, key, visited, budget, p);
    MaximalUnfolds(rels, key, visited, budget, p);
    if budget > 0 && p != [] {
      SuffixesExact(rels, le, ConsumerKey(p[0]), visited + {ConsumerKey(p[0])}, budget - 1, p[1..]);
    }
  }

  /** No path is emitted twice. */
  lemma {:induction false} SuffixesDistinct(rels: seq<Relationship>, le: (string, string) -> bool, key: Key, visited: set<Key>, budget: nat)
    requires Distinct(rels)
    ensures Distinct(Suffixes(rels, le, key, visited, budget))
    decreases budget, 1, 0
  {
    NextMembers(rels, le, key, visited);
    var next := Unvisited(Outgoing(rels, le, key), visited);
    if budget > 0 && next != [] {
      ViaDistinct(rels, le, next, visited, budget);
    }
  }

  lemma {:induction false} ViaDistinct(rels: seq<Relationship>, le: (string, string) -> bool, next: seq<Relationship>, visited: set<Key>, budget: nat)
    requires Distinct(rels) && Distinct(next) && budget > 0
    ensures Distinct(SuffixesVia(rels, le, next, visited, budget))
    decreases budget, 0, |next|
  {
    if next != [] {
      var e, below := next[0], Below(rels, le, next[0], visited, budget - 1);
      SuffixesDistinct(rels, le, ConsumerKey(e), visited + {ConsumerKey(e)}, budget - 1);
      ViaDistinct(rels, le, next[1..], visited, budget);
      var first, later := EachAfter(e, below), SuffixesVia(rels, le, next[1..], visited, budget);
      forall i, j | 0 <= i < j < |first| ensures first[i] != first[j] {
        assert first[i][1..] == below[i] && first[j][1..] == below[j];
      }
      forall i, j | 0 <= i < |first| && 0 <= j < |later| ensures first[i] != later[j] {
        assert later[j] in later;
        ViaMember(rels, le, next[1..], visited, budget, later[j]);
      }
    }
  }

  /** `q` is a trail of full length that `e` would continue. */
  ghost predicate StoppedBefore(rels: seq<Relationship>, key: Key, visited: set<Key>, budget: nat, q: seq<Relationship>, e: Relationship) {
    Trail(rels, key, visited, q) && |q| == budget && LeadsOn(rels, End(key, q), Seen(visited, q), e)
  }

  lemma StoppedBeforeUnfolds(rels: seq<Relationship>, key: Key, visited: set<Key>, budget: nat, q: seq<Relationship>, e: Relationship)
    requires budget > 0
    ensures StoppedBefore(rels, key, visited, budget, q, e) <==>
            q != [] && LeadsOn(rels, key, visited, q[0])
            && StoppedBefore(rels, ConsumerKey(q[0]), visited + {ConsumerKey(q[0])}, budget - 1, q[1..], e)
  {
  }

  lemma {:induction false} OversizedViaMember(rels: seq<Relationship>, le: (string, string) -> bool, next: seq<Relationship>, visited: set<Key>, budget: nat, e: Relationship)
    requires budget > 0
    ensures e in OversizedVia(rels, le, next, visited, budget) <==>
            exists x :: x in next && e in Oversized(rels, le, ConsumerKey(x), visited + {ConsumerKey(x)}, budget - 1)
  {
    if next != [] {
      OversizedViaMember(rels, le, next[1..], visited, budget, e);
      assert forall x :: x in next <==> x == next[0] || x in next[1..];
    }
  }

  lemma OversizedUnfold(rels: seq<Relationship>, le: (string, string) -> bool, key: Key, visited: set<Key>, budget: nat, e: Relationship)
    ensures budget == 0 ==> (e in Oversized(rels, le, key, visited, budget) <==> LeadsOn(rels, key, visited, e))
    ensures budget > 0 ==>
      (e in Oversized(rels, le, key, visited, budget) <==>
       exists x :: LeadsOn(rels, key, visited, x)
                   && e in Oversized(rels, le, ConsumerKey(x), visited + {ConsumerKey(x)}, budget - 1))
  {
    NextMembers(rels, le, key, visited);
    if budget > 0 {
      OversizedViaMember(rels, le, Unvisited(Outgoing(rels, le, key), visited), visited, budget, e);
    }
  }

  lemma {:induction false} OversizedHasTrail(rels: seq<Relationship>, le: (string, string) -> bool, key: Key, visited: set<Key>, budget: nat, e: Relationship)
    returns (q: seq<Relationship>)
    requires e in Oversized(rels, le, key, visited, budget)
    ensures StoppedBefore(rels, key, visited, budget, q, e)
    decreases budget
  {
    OversizedUnfold(rels, le, key, visited, budget, e);
    if budget == 0 {
      q := [];
    } else {
      var x :| LeadsOn(rels, key, visited, x) && e in Oversized(rels, le, ConsumerKey(x), visited + {ConsumerKey(x)}, budget - 1);
      var below := OversizedHasTrail(rels, le, ConsumerKey(x), visited + {ConsumerKey(x)}, budget - 1, e);
      q := [x] + below;
      assert q[1..] == below;
      StoppedBeforeUnfolds(rels, key, visited, budget, q, e);
    }
  }

  lemma {:induction false} StoppedIsOversized(rels: seq<Relationship>, le: (string, string) -> bool, key: Key, visited: set<Key>, budget: nat, e: Relationship, q: seq<Relationship>)
    requires StoppedBefore(rels, key, visited, budget, q, e)
    ensures e in Oversized(rels, le, key, visited, budget)
    decreases budget
  {
    OversizedUnfold(rels, le, key, visited, budget, e);
    if budget > 0 {
      StoppedBeforeUnfolds(rels, key, visited, budget, q, e);
      StoppedIsOversized(rels, le, ConsumerKey(q[0]), visited + {ConsumerKey(q[0])}, budget - 1, e, q[1..]);
    }
  }

  /** The search gives up exactly at the relationships that leave a trail of full length. */
  lemma OversizedExact(rels: seq<Relationship>, le: (string, string) -> bool, key: Key, visited: set<Key>, budget: nat, e: Relationship)
    ensures e in Oversized(rels, le, key, visited, budget) <==> exists q :: StoppedBefore(rels, key, visited, budget, q, e)
  {
    if e in Oversized(rels, le, key, visited, budget) {
      var q := OversizedHasTrail(rels, le, key, visited, budget, e);
    }
    if q :| StoppedBefore(rels, key, visited, budget, q, e) {
      StoppedIsOversized(rels, le, key, visited, budget, e, q);
    }
  }

  // ---- The search itself ----

  /** How many more operations a search may add that has `stepCount` of `maxSteps` already. */
  function Budget(maxSteps: nat, stepCount: nat): nat {
    if stepCount < maxSteps then maxSteps - stepCount else 0
  }

  /** The workflows collected so far are those of `paths`, in order. */
  ghost predicate Collected(paths: seq<seq<Relationship>>, workflows: seq<Workflow>, idOf: seq<string> -> string) {
    |workflows| == |paths| && forall i :: 0 <= i < |paths| ==> paths[i] != [] && IsWorkflowOf(paths[i], idOf, workflows[i])
  }

  function Ids(rels: seq<Relationship>): seq<string> {
    Map(rels, (r: Relationship) => r.id)
  }

  function Extended(path: seq<Relationship>, suffixes: seq<seq<Relationship>>): seq<seq<Relationship>> {
    Map(suffixes, q => path + q)
  }

  function IsPath(p: seq<Relationship>): bool {
    p != []
  }

  /** The paths emitted below `key` when the search arrives there along `path`. */
  function Emitted(rels: seq<Relationship>, le: (string, string) -> bool, key: Key, path: seq<Relationship>, visited: set<Key>, budget: nat): seq<seq<Relationship>> {
    Filter(Extended(path, Suffixes(rels, le, key, visited, budget)), IsPath)
  }

  /** What the loop over `next` has emitted. */
  function EmittedVia(rels: seq<Relationship>, le: (string, string) -> bool, next: seq<Relationship>, path: seq<Relationship>, visited: set<Key>, budget: nat): seq<seq<Relationship>>
    requires budget > 0
  {
    Filter(Extended(path, SuffixesVia(rels, le, next, visited, budget)), IsPath)
  }

  lemma {:induction false} SuffixesViaPush(rels: seq<Relationship>, le: (string, string) -> bool, next: seq<Relationship>, e: Relationship, visited: set<Key>, budget: nat)
    requires budget > 0
    ensures SuffixesVia(rels, le, next + [e], visited, budget) ==
            SuffixesVia(rels, le, next, visited, budget) + EachAfter(e, Below(rels, le, e, visited, budget - 1))
  {
    var more, last := next + [e], EachAfter(e, Below(rels, le, e, visited, budget - 1));
    ViaHead(rels, le, more, visited, budget);
    if next == [] {
      assert more[0] == e && more[1..] == [];
    } else {
      assert more[0] == next[0] && more[1..] == next[1..] + [e];
      SuffixesViaPush(rels, le, next[1..], e, visited, budget);
      ViaHead(rels, le, next, visited, budget);
      ThreeParts(EachAfter(next[0], Below(rels, le, next[0], visited, budget - 1)), SuffixesVia(rels, le, next[1..], visited, budget), last);
    }
  }

  lemma ViaHead(rels: seq<Relationship>, le: (string, string) -> bool, next: seq<Relationship>, visited: set<Key>, budget: nat)
    requires budget > 0 && next != []
    ensures SuffixesVia(rels, le, next, visited, budget) ==
            EachAfter(next[0], Below(rels, le, next[0], visited, budget - 1)) + SuffixesVia(rels, le, next[1..], visited, budget)
  {
  }

  lemma ThreeParts<T>(a: seq<T>, b: seq<T>, c: seq<T>)
    ensures a + (b + c) == (a + b) + c
  {
  }

  lemma {:induction false} OversizedViaPush(rels: seq<Relationship>, le: (string, string) -> bool, next: seq<Relationship>, e: Relationship, visited: set<Key>, budget: nat)
    requires budget > 0
    ensures OversizedVia(rels, le, next + [e], visited, budget) ==
            OversizedVia(rels, le, next, visited, budget) + Oversized(rels, le, ConsumerKey(e), visited + {ConsumerKey(e)}, budget - 1)
  {
    if next == [] {
      assert next + [e] == [e] && [e][1..] == [];
    } else {
      assert (next + [e])[1..] == next[1..] + [e];
      OversizedViaPush(rels, le, next[1..], e, visited, budget);
    }
  }

  lemma ExtendedThrough(path: seq<Relationship>, e: Relationship, below: seq<seq<Relationship>>)
    ensures Extended(path, EachAfter(e, below)) == Extended(path + [e], below)
  {
    forall k | 0 <= k < |below| ensures path + ([e] + below[k]) == path + [e] + below[k] {}
  }

  lemma EmittedViaPush(rels: seq<Relationship>, le: (string, string) -> bool, next: seq<Relationship>, e: Relationship, path: seq<Relationship>, visited: set<Key>, budget: nat)
    requires budget > 0
    ensures EmittedVia(rels, le, next + [e], path, visited, budget) ==
            EmittedVia(rels, le, next, path, visited, budget)
            + Emitted(rels, le, ConsumerKey(e), path + [e], visited + {ConsumerKey(e)}, budget - 1)
  {
    var before, below := SuffixesVia(rels, le, next, visited, budget), Below(rels, le, e, visited, budget - 1);
    SuffixesViaPush(rels, le, next, e, visited, budget);
    MapAppend(before, EachAfter(e, below), q => path + q);
    ExtendedThrough(path, e, below);
    FilterAppend(Extended(path, before), Extended(path + [e], below), IsPath);
  }

  /** What holds when the loop at one operation has handled the unvisited edges `next`. */
  ghost predicate VisitedVia(
    rels: seq<Relationship>, le: (string, string) -> bool, next: seq<Relationship>, path: seq<Relationship>, visited: set<Key>, budget: nat,
    paths0: seq<seq<Relationship>>, oversized0: seq<Relationship>, paths: seq<seq<Relationship>>, oversized: seq<Relationship>)
  {
    if budget == 0 then paths == paths0 && oversized == oversized0 + next
    else
      && paths == paths0 + EmittedVia(rels, le, next, path, visited, budget)
      && oversized == oversized0 + OversizedVia(rels, le, next, visited, budget)
  }

  lemma VisitedViaPush(
    rels: seq<Relationship>, le: (string, string) -> bool, next: seq<Relationship>, e: Relationship, path: seq<Relationship>, visited: set<Key>, budget: nat,
    paths0: seq<seq<Relationship>>, oversized0: seq<Relationship>, paths: seq<seq<Relationship>>, oversized: seq<Relationship>)
    requires budget > 0 && VisitedVia(rels, le, next, path, visited, budget, paths0, oversized0, paths, oversized)
    ensures VisitedVia(rels, le, next + [e], path, visited, budget, paths0, oversized0,
                       paths + Emitted(rels, le, ConsumerKey(e), path + [e], visited + {ConsumerKey(e)}, budget - 1),
                       oversized + Oversized(rels, le, ConsumerKey(e), visited + {ConsumerKey(e)}, budget - 1))
  {
    EmittedViaPush(rels, le, next, e, path, visited, budget);
    OversizedViaPush(rels, le, next, e, visited, budget);
    Associative(paths0, EmittedVia(rels, le, next, path, visited, budget),
                Emitted(rels, le, ConsumerKey(e), path + [e], visited + {ConsumerKey(e)}, budget - 1));
    Associative(oversized0, OversizedVia(rels, le, next, visited, budget),
                Oversized(rels, le, ConsumerKey(e), visited + {ConsumerKey(e)}, budget - 1));
  }

  lemma Associative<T>(a: seq<T>, b: seq<T>, c: seq<T>)
    ensures a + b + c == a + (b + c)
  {
  }

  /** The loop's state turns into what the whole visit must have done. */
  lemma VisitedAll(
    rels: seq<Relationship>, le: (string, string) -> bool, key: Key, path: seq<Relationship>, visited: set<Key>, budget: nat,
    paths0: seq<seq<Relationship>>, oversized0: seq<Relationship>, paths: seq<seq<Relationship>>, oversized: seq<Relationship>)
    requires var next := Unvisited(Outgoing(rels, le, key), visited);
             VisitedVia(rels, le, next, path, visited, budget, paths0, oversized0, paths, oversized)
    ensures oversized == oversized0 + Oversized(rels, le, key, visited, budget)
    ensures var stops := budget == 0 || Unvisited(Outgoing(rels, le, key), visited) == [];
            paths0 + Emitted(rels, le, key, path, visited, budget) == paths + (if stops && path != [] then [path] else [])
  {
    var next := Unvisited(Outgoing(rels, le, key), visited);
    if budget == 0 || next == [] {
      assert path + [] == path;
      assert Extended(path, [[]]) == [path];
      assert [path][1..] == [];
      if budget > 0 { assert EmittedVia(rels, le, next, path, visited, budget) == []; }
    }
  }

  /** The arrays and maps that `enumerateWorkflows` and its `visit` share. */
  class WorkflowSearch {
    const relationships: seq<Relationship>
    const maxSteps: nat
    const le: (string, string) -> bool
    const idOf: seq<string> -> string
    const outgoingByNode: map<Key, seq<Relationship>>
    var workflows: seq<Workflow>
    var oversizedChainRelationshipIds: seq<string>
    ghost var paths: seq<seq<Relationship>>
    ghost var oversized: seq<Relationship>

    ghost predicate Valid()
      reads this
    {
      Collected(paths, workflows, idOf) && oversizedChainRelationshipIds == Ids(oversized)
    }

    /** `outgoingByNode` holds the relationships of every producer, in input order. */
    ghost predicate IndexesOutgoing() {
      && (forall k :: k in outgoingByNode ==> outgoingByNode[k] == OfKey(relationships, ProducerKey, k))
      && (forall k :: k !in outgoingByNode ==> OfKey(relationships, ProducerKey, k) == [])
    }

    constructor (relationships: seq<Relationship>, maxSteps: nat, le: (string, string) -> bool, idOf: seq<string> -> string,
                 outgoingByNode: map<Key, seq<Relationship>>)
      requires forall k :: k in outgoingByNode ==> outgoingByNode[k] == OfKey(relationships, ProducerKey, k)
      requires forall k :: k !in outgoingByNode ==> OfKey(relationships, ProducerKey, k) == []
      ensures Valid() && IndexesOutgoing() && paths == [] && oversized == []
      ensures this.relationships == relationships && this.maxSteps == maxSteps && this.le == le && this.idOf == idOf
    {
      this.relationships, this.maxSteps, this.le, this.idOf := relationships, maxSteps, le, idOf;
      this.outgoingByNode := outgoingByNode;
      workflows, oversizedChainRelationshipIds, paths, oversized := [], [], [], [];
    }

    /** `oversizedChainRelationshipIds.push(edge.id)` */
    method GiveUpAt(edge: Relationship)
      requires Valid()
      modifies this
      ensures Valid() && oversized == old(oversized) + [edge] && paths == old(paths)
    {
      MapAppend(oversized, [edge], (r: Relationship) => r.id);
      assert Map([edge], (r: Relationship) => r.id) == [edge.id];
      oversizedChainRelationshipIds := oversizedChainRelationshipIds + [edge.id];
      oversized := oversized + [edge];
    }

    /** `workflows.push(buildWorkflowFromPath(pathRelationships))` */
    method Emit(path: seq<Relationship>)
      requires Valid() && path != []
      modifies this
      ensures Valid() && paths == old(paths) + [path] && oversized == old(oversized)
    {
      var workflow := BuildWorkflowFromPath(path, idOf);
      workflows := workflows + [workflow];
      paths := paths + [path];
    }

    /** The sorted edges that leave an operation. */
    method SortedEdges(key: Key) returns (outgoing: seq<Relationship>)
      requires IndexesOutgoing()
      ensures outgoing == Outgoing(relationships, le, key)
    {
      outgoing := SortBy(if key in outgoingByNode then outgoingByNode[key] else [], EdgeOrder(le));
    }

    /** One turn of the loop in `visit`: an edge is skipped, given up at, or followed. */
    method VisitEdge(edge: Relationship, path: seq<Relationship>, visitedKeys: set<Key>, stepCount: nat,
                     ghost handled: seq<Relationship>, ghost paths0: seq<seq<Relationship>>, ghost oversized0: seq<Relationship>)
      returns (followed: bool)
      requires Valid() && IndexesOutgoing()
      requires VisitedVia(relationships, le, handled, path, visitedKeys, Budget(maxSteps, stepCount), paths0, oversized0, paths, oversized)
      modifies this
      ensures Valid()
      ensures followed == (Budget(maxSteps, stepCount) > 0 && ConsumerKey(edge) !in visitedKeys)
      ensures VisitedVia(relationships, le, handled + (if ConsumerKey(edge) !in visitedKeys then [edge] else []), path, visitedKeys,
                         Budget(maxSteps, stepCount), paths0, oversized0, paths, oversized)
      decreases Budget(maxSteps, stepCount), 0
    {
      followed := false;
      var nextKey := ConsumerKey(edge);
      if nextKey in visitedKeys {
        assert handled + [] == handled;
      } else if stepCount + 1 > maxSteps {
        Associative(oversized0, handled, [edge]);
        GiveUpAt(edge);
      } else {
        followed := true;
        VisitedViaPush(relationships, le, handled, edge, path, visitedKeys, Budget(maxSteps, stepCount), paths0, oversized0, paths, oversized);
        Visit(nextKey, path + [edge], visitedKeys + {nextKey}, stepCount + 1);
      }
    }

    method Visit(currentKey: Key, path: seq<Relationship>, visitedKeys: set<Key>, stepCount: nat)
      requires Valid() && IndexesOutgoing()
      modifies this
      ensures Valid()
      ensures paths == old(paths) + Emitted(relationships, le, currentKey, path, visitedKeys, Budget(maxSteps, stepCount))
      ensures oversized == old(oversized) + Oversized(relationships, le, currentKey, visitedKeys, Budget(maxSteps, stepCount))
      decreases Budget(maxSteps, stepCount), 1
    {
      ghost var paths0, oversized0, budget := paths, oversized, Budget(maxSteps, stepCount);
      var outgoing := SortedEdges(currentKey);
      var extended := false;
      NothingHandled(relationships, le, path, visitedKeys, budget, paths, oversized);
      for i := 0 to |outgoing|
        invariant Valid()
        invariant VisitedVia(relationships, le, Unvisited(outgoing[..i], visitedKeys), path, visitedKeys, budget, paths0, oversized0, paths, oversized)
        invariant extended == (budget > 0 && Unvisited(outgoing[..i], visitedKeys) != [])
      {
        UnvisitedPush(outgoing, i, visitedKeys);
        var followed := VisitEdge(outgoing[i], path, visitedKeys, stepCount, Unvisited(outgoing[..i], visitedKeys), paths0, oversized0);
        extended := extended || followed;
      }
      assert outgoing[..|outgoing|] == outgoing;
      VisitedAll(relationships, le, currentKey, path, visitedKeys, budget, paths0, oversized0, paths, oversized);
      if !extended && |path| > 0 {
        Emit(path);
      }
    }
  }

  lemma NothingHandled(
    rels: seq<Relationship>, le: (string, string) -> bool, path: seq<Relationship>, visited: set<Key>, budget: nat,
    paths: seq<seq<Relationship>>, oversized: seq<Relationship>)
    ensures VisitedVia(rels, le, [], path, visited, budget, paths, oversized, paths, oversized)
  {
  }

  lemma UnvisitedPush(outs: seq<Relationship>, i: nat, visited: set<Key>)
    requires i < |outs|
    ensures Unvisited(outs[..i + 1], visited) ==
            Unvisited(outs[..i], visited) + (if ConsumerKey(outs[i]) !in visited then [outs[i]] else [])
  {
    FilterPush(outs, i, (e: Relationship) => ConsumerKey(e) !in visited);
  }
}
