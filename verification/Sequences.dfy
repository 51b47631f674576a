/** Stock sequence operations: the `filter`, `map` and `flatMap` calls of the source. */
module Sequences {

  datatype Option<+T> = None | Some(value: T)

  function Filter<T(!new)>(s: seq<T>, keep: T -> bool): (r: seq<T>)
    ensures forall x :: x in r <==> x in s && keep(x)
    ensures |r| <= |s|
  {
    if s == [] then []
    else (if keep(s[0]) then [s[0]] else []) + Filter(s[1..], keep)
  }

  function Map<T, U>(s: seq<T>, f: T -> U): (r: seq<U>)
    ensures |r| == |s|
    ensures forall i :: 0 <= i < |s| ==> r[i] == f(s[i])
  {
    if s == [] then [] else [f(s[0])] + Map(s[1..], f)
  }

  function Flatten<T>(ss: seq<seq<T>>): seq<T> {
    if ss == [] then [] else ss[0] + Flatten(ss[1..])
  }

  ghost predicate Distinct<T>(s: seq<T>) {
    forall i, j :: 0 <= i < j < |s| ==> s[i] != s[j]
  }

  lemma {:induction false} FilterAppend<T(!new)>(a: seq<T>, b: seq<T>, keep: T -> bool)
    ensures Filter(a + b, keep) == Filter(a, keep) + Filter(b, keep)
  {
    if a == [] {
      assert a + b == b;
    } else {
      assert (a + b)[1..] == a[1..] + b;
      FilterAppend(a[1..], b, keep);
    }
  }

  /** One loop step of a filter that pushes onto a result. */
  lemma FilterPush<T(!new)>(s: seq<T>, i: nat, keep: T -> bool)
    requires i < |s|
    ensures Filter(s[..i + 1], keep) == Filter(s[..i], keep) + (if keep(s[i]) then [s[i]] else [])
  {
    assert s[..i + 1] == s[..i] + [s[i]];
    FilterAppend(s[..i], [s[i]], keep);
    assert [s[i]][1..] == [];
  }

  lemma {:induction false} FlattenAppend<T>(a: seq<seq<T>>, b: seq<seq<T>>)
    ensures Flatten(a + b) == Flatten(a) + Flatten(b)
  {
    if a == [] {
      assert a + b == b;
    } else {
      assert (a + b)[1..] == a[1..] + b;
      FlattenAppend(a[1..], b);
    }
  }

  lemma {:induction false} MapAppend<T, U>(a: seq<T>, b: seq<T>, f: T -> U)
    ensures Map(a + b, f) == Map(a, f) + Map(b, f)
  {
  }

  /** A filter and its complement split the elements of a sequence. */
  lemma {:induction false} FilterSplits<T(!new)>(s: seq<T>, keep: T -> bool, drop: T -> bool)
    requires forall x :: x in s ==> keep(x) == !drop(x)
    ensures multiset(Filter(s, keep)) + multiset(Filter(s, drop)) == multiset(s)
  {
    if s == [] {
    } else {
      assert s == [s[0]] + s[1..];
      FilterSplits(s[1..], keep, drop);
    }
  }

  lemma {:induction false} FilterSame<T(!new)>(s: seq<T>, f: T -> bool, g: T -> bool)
    requires forall x :: x in s ==> f(x) == g(x)
    ensures Filter(s, f) == Filter(s, g)
  {
    if s != [] {
      FilterSame(s[1..], f, g);
    }
  }

  lemma {:induction false} FilterDistinct<T(!new)>(s: seq<T>, keep: T -> bool)
    requires Distinct(s)
    ensures Distinct(Filter(s, keep))
  {
    if s != [] {
      FilterDistinct(s[1..], keep);
    }
  }

  lemma {:induction false} FlattenMembers<T(!new)>(ss: seq<seq<T>>, x: T)
    ensures x in Flatten(ss) <==> exists i :: 0 <= i < |ss| && x in ss[i]
  {
    if ss != [] {
      FlattenMembers(ss[1..], x);
      if i :| 0 <= i < |ss| && x in ss[i] {
        assert i == 0 || x in ss[1..][i - 1];
      }
      if i :| 0 <= i < |ss[1..]| && x in ss[1..][i] {
        assert x in ss[i + 1];
      }
    }
  }

  lemma {:induction false} FilterNone<T(!new)>(s: seq<T>, keep: T -> bool)
    requires forall x :: x in s ==> !keep(x)
    ensures Filter(s, keep) == []
  {
    if s != [] { FilterNone(s[1..], keep); }
  }

  lemma {:induction false} FilterAll<T(!new)>(s: seq<T>, keep: T -> bool)
    requires forall x :: x in s ==> keep(x)
    ensures Filter(s, keep) == s
  {
    if s != [] { FilterAll(s[1..], keep); }
  }

  lemma {:induction false} DistinctMultiset<T>(s: seq<T>)
    ensures Distinct(s) <==> forall x :: x in s ==> multiset(s)[x] == 1
  {
    if s != [] {
      assert s == [s[0]] + s[1..];
      DistinctMultiset(s[1..]);
      if Distinct(s) {
        forall x | x in s ensures multiset(s)[x] == 1 {
          if x in s[1..] { assert multiset(s[1..])[x] == 1; assert x != s[0]; }
        }
      }
      if forall x :: x in s ==> multiset(s)[x] == 1 {
        assert multiset(s)[s[0]] == 1;
        assert s[0] !in s[1..] by { assert multiset(s) == multiset{s[0]} + multiset(s[1..]); }
        forall x | x in s[1..] ensures multiset(s[1..])[x] == 1 { assert multiset(s)[x] == 1; }
      }
    }
  }

  lemma DistinctPermutation<T>(s: seq<T>, t: seq<T>)
    requires multiset(s) == multiset(t) && Distinct(s)
    ensures Distinct(t)
  {
    DistinctMultiset(s);
    DistinctMultiset(t);
    forall x | x in t ensures multiset(t)[x] == 1 { assert x in multiset(s); }
  }

  lemma {:induction false} DistinctCount<T>(s: seq<T>, elements: set<T>)
    requires Distinct(s) && forall x :: x in s <==> x in elements
    ensures |s| == |elements|
  {
    if s == [] {
      assert elements == {};
    } else {
      assert s[0] !in s[1..];
      DistinctCount(s[1..], elements - {s[0]});
    }
  }

  // ---- Grouping by a key, in the order the keys are first seen ----

  function AddKey<K(==)>(keys: seq<K>, k: K): seq<K> {
    if k in keys then keys else keys + [k]
  }

  /** The keys of `items` in the order they are first seen: the iteration order of a `Map` filled by a loop. */
  function FirstKeys<T, K(==)>(items: seq<T>, key: T -> K): seq<K> {
    if items == [] then [] else AddKey(FirstKeys(items[..|items| - 1], key), key(items[|items| - 1]))
  }

  function HasKey<T, K(==)>(key: T -> K, k: K): T -> bool {
    x => key(x) == k
  }

  function LacksKey<T, K(==)>(key: T -> K, k: K): T -> bool {
    x => key(x) != k
  }

  function OfKey<T(!new), K(==)>(items: seq<T>, key: T -> K, k: K): seq<T> {
    Filter(items, HasKey(key, k))
  }

  lemma {:induction false} FirstKeysComplete<T(!new), K>(items: seq<T>, key: T -> K)
    ensures Distinct(FirstKeys(items, key))
    ensures forall x :: x in items ==> key(x) in FirstKeys(items, key)
    ensures forall k :: k in FirstKeys(items, key) ==> exists x :: x in items && key(x) == k
  {
    if items != [] {
      var init, last := items[..|items| - 1], items[|items| - 1];
      FirstKeysComplete(init, key);
      assert items == init + [last];
      assert last in items;
    }
  }

  lemma FirstKeyUsed<T(!new), K(!new)>(items: seq<T>, key: T -> K, k: K)
    requires k in FirstKeys(items, key)
    ensures OfKey(items, key, k) != []
  {
    FirstKeysComplete(items, key);
    var x :| x in items && key(x) == k;
    assert x in OfKey(items, key, k);
  }

  /** `x` is met before `y` is. */
  ghost predicate SeenBefore<T, K>(items: seq<T>, key: T -> K, x: K, y: K) {
    exists i :: 0 <= i < |items| && key(items[i]) == x && forall j :: 0 <= j <= i ==> key(items[j]) != y
  }

  /** The keys of a grouping map stand in the order in which they were first seen. */
  lemma {:induction false} FirstSeenFirst<T(!new), K(!new)>(items: seq<T>, key: T -> K, a: nat, b: nat)
    requires a < b < |FirstKeys(items, key)|
    ensures SeenBefore(items, key, FirstKeys(items, key)[a], FirstKeys(items, key)[b])
  {
    var init := items[..|items| - 1];
    var x, y := FirstKeys(items, key)[a], FirstKeys(items, key)[b];
    if b < |FirstKeys(init, key)| {
      FirstSeenFirst(init, key, a, b);
      var i :| 0 <= i < |init| && key(init[i]) == x && forall j :: 0 <= j <= i ==> key(init[j]) != y;
      assert key(items[i]) == x;
    } else {
      FirstKeysComplete(init, key);
      FirstKeyUsed(init, key, x);
      var r :| r in init && key(r) == x;
      var i :| 0 <= i < |init| && init[i] == r;
      forall j | 0 <= j <= i ensures key(items[j]) != y { assert init[j] in init; }
      assert key(items[i]) == x;
    }
  }

  lemma FirstKeysPush<T, K>(items: seq<T>, i: nat, key: T -> K)
    requires i < |items|
    ensures FirstKeys(items[..i + 1], key) == AddKey(FirstKeys(items[..i], key), key(items[i]))
  {
    assert items[..i + 1][..i] == items[..i];
  }

  /** The map a grouping loop has built from `items`. */
  ghost predicate Grouped<T(!new), K(!new)>(items: seq<T>, key: T -> K, keys: seq<K>, groupOf: map<K, seq<T>>) {
    && keys == FirstKeys(items, key)
    && (forall k :: k in groupOf <==> k in keys)
    && (forall k {:trigger GroupAt(items, key, groupOf, k)} :: GroupAt(items, key, groupOf, k))
  }

  lemma OfKeyPush<T(!new), K>(items: seq<T>, i: nat, key: T -> K, k: K)
    requires i < |items|
    ensures OfKey(items[..i + 1], key, k) == OfKey(items[..i], key, k) + (if key(items[i]) == k then [items[i]] else [])
  {
    FilterPush(items, i, HasKey(key, k));
  }

  ghost predicate GroupAt<T(!new), K(!new)>(items: seq<T>, key: T -> K, groupOf: map<K, seq<T>>, k: K) {
    k in groupOf ==> groupOf[k] == OfKey(items, key, k) && groupOf[k] != []
  }

  lemma GroupPushAt<T(!new), K(!new)>(items: seq<T>, i: nat, key: T -> K, groupOf: map<K, seq<T>>, j: K)
    requires i < |items| && GroupAt(items[..i], key, groupOf, j)
    requires key(items[i]) !in groupOf ==> forall x :: x in items[..i] ==> key(x) != key(items[i])
    ensures var k := key(items[i]);
            GroupAt(items[..i + 1], key, groupOf[k := (if k in groupOf then groupOf[k] else []) + [items[i]]], j)
  {
    OfKeyPush(items, i, key, j);
    if j == key(items[i]) && j !in groupOf { FilterNone(items[..i], HasKey(key, j)); }
  }

  lemma GroupPush<T(!new), K(!new)>(items: seq<T>, i: nat, key: T -> K, keys: seq<K>, groupOf: map<K, seq<T>>)
    requires i < |items| && Grouped(items[..i], key, keys, groupOf)
    ensures var k := key(items[i]);
            Grouped(items[..i + 1], key, AddKey(keys, k), groupOf[k := (if k in groupOf then groupOf[k] else []) + [items[i]]])
  {
    FirstKeysPush(items, i, key);
    FirstKeysComplete(items[..i], key);
    var k := key(items[i]);
    var groupOf' := groupOf[k := (if k in groupOf then groupOf[k] else []) + [items[i]]];
    var done := items[..i + 1];
    forall j ensures GroupAt(done, key, groupOf', j) {
      assert GroupAt(items[..i], key, groupOf, j);
      GroupPushAt(items, i, key, groupOf, j);
    }
  }

  /** The loop `const group = map.get(key); if (group) group.push(item); else map.set(key, [item]);`. */
  method GroupBy<T(!new), K(!new, ==)>(items: seq<T>, key: T -> K) returns (keys: seq<K>, groupOf: map<K, seq<T>>)
    ensures Grouped(items, key, keys, groupOf)
  {
    keys, groupOf := [], map[];
    for i := 0 to |items|
      invariant Grouped(items[..i], key, keys, groupOf)
    {
      GroupPush(items, i, key, keys, groupOf);
      var k := key(items[i]);
      if k in groupOf {
        groupOf := groupOf[k := groupOf[k] + [items[i]]];
      } else {
        keys := keys + [k];
        assert [] + [items[i]] == [items[i]];
        groupOf := groupOf[k := [items[i]]];
      }
    }
    assert items[..|items|] == items;
  }

  lemma {:induction false} FilterMultiset<T(!new)>(s: seq<T>, keep: T -> bool, x: T)
    ensures multiset(Filter(s, keep))[x] == if keep(x) then multiset(s)[x] else 0
  {
    if s != [] {
      FilterMultiset(s[1..], keep, x);
      assert s == [s[0]] + s[1..];
    }
  }

  lemma FilterPermutation<T(!new)>(a: seq<T>, b: seq<T>, keep: T -> bool)
    requires multiset(a) == multiset(b)
    ensures multiset(Filter(a, keep)) == multiset(Filter(b, keep))
  {
    forall x ensures multiset(Filter(a, keep))[x] == multiset(Filter(b, keep))[x] {
      FilterMultiset(a, keep, x);
      FilterMultiset(b, keep, x);
    }
  }

  /** Taking one group away leaves the other groups as they were. */
  lemma OtherGroupsKeep<T(!new), K>(items: seq<T>, key: T -> K, k: K, keys: seq<K>)
    requires k !in keys
    ensures Map(keys, j => OfKey(Filter(items, LacksKey(key, k)), key, j)) == Map(keys, j => OfKey(items, key, j))
  {
    var rest := Filter(items, LacksKey(key, k));
    forall j | j in keys ensures OfKey(rest, key, j) == OfKey(items, key, j) {
      FilterTwice(items, LacksKey(key, k), HasKey(key, j), HasKey(key, j));
    }
  }

  lemma HasMember<T>(s: seq<T>)
    ensures s == [] || exists x :: x in s
  {
    if s != [] { assert s[0] in s; }
  }

  /** Groups by all their keys, each key once, together hold every element. */
  lemma {:induction false} GroupsPartition<T(!new), K>(items: seq<T>, key: T -> K, keys: seq<K>)
    requires Distinct(keys) && forall x :: x in items ==> key(x) in keys
    ensures multiset(Flatten(Map(keys, k => OfKey(items, key, k)))) == multiset(items)
    decreases |keys|
  {
    if keys == [] {
      HasMember(items);
    } else {
      var k := keys[0];
      var rest := Filter(items, LacksKey(key, k));
      FilterSplits(items, HasKey(key, k), LacksKey(key, k));
      GroupsPartition(rest, key, keys[1..]);
      OtherGroupsKeep(items, key, k, keys[1..]);
      var groups := Map(keys, j => OfKey(items, key, j));
      assert groups == [OfKey(items, key, k)] + Map(keys[1..], j => OfKey(items, key, j));
      assert Flatten(groups) == OfKey(items, key, k) + Flatten(groups[1..]);
    }
  }

  lemma {:induction false} FilterTwice<T(!new)>(s: seq<T>, f: T -> bool, g: T -> bool, h: T -> bool)
    requires forall x :: h(x) == (f(x) && g(x))
    ensures Filter(Filter(s, f), g) == Filter(s, h)
  {
    if s != [] {
      FilterTwice(s[1..], f, g, h);
      FilterAppend(if f(s[0]) then [s[0]] else [], Filter(s[1..], f), g);
      assert [s[0]][1..] == [];
    }
  }

  // ---- Mapping to sequences ----

  function FlatMap<T, U>(s: seq<T>, f: T -> seq<U>): seq<U> {
    if s == [] then [] else f(s[0]) + FlatMap(s[1..], f)
  }

  lemma FlatMapTwo<T, U>(x: T, y: T, f: T -> seq<U>)
    ensures FlatMap([x, y], f) == f(x) + f(y)
  {
    assert [x, y][1..] == [y] && [y][1..] == [];
    assert FlatMap([y], f) == f(y) + FlatMap([], f);
    assert f(y) + [] == f(y);
  }

  lemma {:induction false} FlatMapAppend<T, U>(a: seq<T>, b: seq<T>, f: T -> seq<U>)
    ensures FlatMap(a + b, f) == FlatMap(a, f) + FlatMap(b, f)
  {
    if a == [] {
      assert a + b == b;
    } else {
      assert (a + b)[1..] == a[1..] + b;
      FlatMapAppend(a[1..], b, f);
      assert FlatMap(a + b, f) == f(a[0]) + (FlatMap(a[1..], f) + FlatMap(b, f));
    }
  }

  lemma FlatMapPush<T, U>(s: seq<T>, i: nat, f: T -> seq<U>)
    requires i < |s|
    ensures FlatMap(s[..i + 1], f) == FlatMap(s[..i], f) + f(s[i])
  {
    assert s[..i + 1] == s[..i] + [s[i]];
    FlatMapAppend(s[..i], [s[i]], f);
    assert [s[i]][1..] == [];
  }

  lemma {:induction false} FlatMapMember<T, U>(s: seq<T>, f: T -> seq<U>, x: U)
    ensures x in FlatMap(s, f) <==> exists i :: 0 <= i < |s| && x in f(s[i])
  {
    if s != [] {
      FlatMapMember(s[1..], f, x);
      if i :| 0 <= i < |s| && x in f(s[i]) {
        assert i > 0 ==> x in f(s[1..][i - 1]);
      }
      if i :| 0 <= i < |s[1..]| && x in f(s[1..][i]) {
        assert x in f(s[i + 1]);
      }
    }
  }

  lemma {:induction false} FlatMapPermutation<T, U>(a: seq<T>, b: seq<T>, f: T -> seq<U>)
    requires multiset(a) == multiset(b)
    ensures multiset(FlatMap(a, f)) == multiset(FlatMap(b, f))
    decreases |a|
  {
    if a == [] {
      assert |multiset(b)| == 0;
    } else {
      assert a[0] in multiset(b);
      var u, v := TakeOut(b, a[0]);
      assert a == [a[0]] + a[1..];
      assert multiset(a[1..]) == multiset(a) - multiset{a[0]};
      assert multiset(u + v) == multiset(b) - multiset{a[0]};
      FlatMapPermutation(a[1..], u + v, f);
      FlatMapMiddle(u, a[0], v, f);
    }
  }

  lemma FlatMapMiddle<T, U>(u: seq<T>, x: T, v: seq<T>, f: T -> seq<U>)
    ensures multiset(FlatMap(u + ([x] + v), f)) == multiset(f(x)) + multiset(FlatMap(u + v, f))
  {
    FlatMapAppend(u, v, f);
    FlatMapAppend(u, [x] + v, f);
    FlatMapAppend([x], v, f);
    assert [x][1..] == [];
  }

  lemma {:induction false} FlatMapSingletons<T>(s: seq<T>, f: T -> seq<T>)
    requires forall x :: x in s ==> f(x) == [x]
    ensures FlatMap(s, f) == s
  {
    if s != [] { FlatMapSingletons(s[1..], f); }
  }

  lemma {:induction false} FlatMapSame<T, U>(s: seq<T>, f: T -> seq<U>, g: T -> seq<U>)
    requires forall x :: x in s ==> f(x) == g(x)
    ensures FlatMap(s, f) == FlatMap(s, g)
  {
    if s != [] { FlatMapSame(s[1..], f, g); }
  }

  /** Laid end to end in any order, groups can be told apart again by their keys. */
  lemma {:induction false} OfKeyOfGroups<R, T(!new), K(!new)>(
    rows: seq<R>, rowKey: R -> K, group: K -> seq<T>, f: R -> seq<T>, key: T -> K, k: K)
    requires Distinct(Map(rows, rowKey)) && forall r :: r in rows ==> f(r) == group(rowKey(r))
    requires forall r, x :: r in rows && x in f(r) ==> key(x) == rowKey(r)
    ensures OfKey(FlatMap(rows, f), key, k) == if k in Map(rows, rowKey) then group(k) else []
  {
    if rows != [] {
      var first := f(rows[0]);
      assert rows[0] in rows;
      assert Map(rows, rowKey) == [rowKey(rows[0])] + Map(rows[1..], rowKey);
      assert Distinct(Map(rows[1..], rowKey)) && rowKey(rows[0]) !in Map(rows[1..], rowKey) by {
        assert forall i :: 0 <= i < |rows| - 1 ==> Map(rows[1..], rowKey)[i] == Map(rows, rowKey)[i + 1];
      }
      OfKeyOfGroups(rows[1..], rowKey, group, f, key, k);
      FilterAppend(first, FlatMap(rows[1..], f), HasKey(key, k));
      if rowKey(rows[0]) == k {
        FilterAll(first, HasKey(key, k));
      } else {
        FilterNone(first, HasKey(key, k));
      }
    }
  }

  /** `new Set(s)` */
  function SetOf<T(!new)>(s: seq<T>): set<T> {
    set x | x in s
  }

  lemma {:induction false} SetOfSize<T(!new)>(s: seq<T>)
    ensures |SetOf(s)| <= |s|
    ensures |SetOf(s)| == |s| <==> Distinct(s)
  {
    if s != [] {
      SetOfSize(s[1..]);
      assert SetOf(s) == SetOf(s[1..]) + {s[0]};
      assert s[0] in s[1..] <==> SetOf(s) == SetOf(s[1..]);
      if s[0] in s[1..] {
        var i :| 0 <= i < |s[1..]| && s[1..][i] == s[0];
        assert s[i + 1] == s[0];
      }
    }
  }

  lemma DistinctSameMembers<T>(a: seq<T>, b: seq<T>)
    requires Distinct(a) && Distinct(b) && forall x :: x in a <==> x in b
    ensures multiset(a) == multiset(b)
  {
    DistinctMultiset(a);
    DistinctMultiset(b);
    forall x ensures multiset(a)[x] == multiset(b)[x] { assert x in a <==> x in b; }
  }

  lemma TakeOut<T>(b: seq<T>, x: T) returns (u: seq<T>, v: seq<T>)
    requires x in b
    ensures b == u + ([x] + v) && multiset(b) == multiset(u + v) + multiset{x}
  {
    var i :| 0 <= i < |b| && b[i] == x;
    u, v := b[..i], b[i + 1..];
    assert b == u + ([x] + v);
  }

  lemma MapMiddle<T, U>(u: seq<T>, x: T, v: seq<T>, f: T -> U)
    ensures multiset(Map(u + ([x] + v), f)) == multiset(Map(u + v, f)) + multiset{f(x)}
  {
    MapAppend(u, v, f);
    MapAppend(u, [x] + v, f);
    MapAppend([x], v, f);
  }

  lemma {:induction false} MapPermutation<T, U>(a: seq<T>, b: seq<T>, f: T -> U)
    requires multiset(a) == multiset(b)
    ensures multiset(Map(a, f)) == multiset(Map(b, f))
    decreases |a|
  {
    if a == [] {
      assert |multiset(b)| == 0;
    } else {
      assert a[0] in multiset(b);
      var u, v := TakeOut(b, a[0]);
      assert a == [a[0]] + a[1..];
      assert [] + ([a[0]] + a[1..]) == a && [] + a[1..] == a[1..];
      assert multiset(a[1..]) == multiset(a) - multiset{a[0]};
      assert multiset(u + v) == multiset(b) - multiset{a[0]};
      MapPermutation(a[1..], u + v, f);
      MapMiddle([], a[0], a[1..], f);
      MapMiddle(u, a[0], v, f);
    }
  }

  /** `parts.join(separator)` */
  function Join(parts: seq<string>, separator: string): string {
    if parts == [] then ""
    else if |parts| == 1 then parts[0]
    else parts[0] + separator + Join(parts[1..], separator)
  }

  /** Parts that do not hold the separator can be told from the joined text. */
  lemma {:induction false} JoinIdentifies(a: seq<string>, b: seq<string>, separator: char)
    requires |a| == |b| && Join(a, [separator]) == Join(b, [separator])
    requires forall i :: 0 <= i < |a| ==> separator !in a[i] && separator !in b[i]
    ensures a == b
    decreases |a|
  {
    if |a| == 1 {
      assert a == [a[0]] && b == [b[0]];
    } else if |a| > 1 {
      var s, x, y := Join(a, [separator]), Join(a[1..], [separator]), Join(b[1..], [separator]);
      assert s == a[0] + [separator] + x == b[0] + [separator] + y;
      FirstSeparator(a[0], b[0], x, y, separator);
      JoinIdentifies(a[1..], b[1..], separator);
      assert a == [a[0]] + a[1..] && b == [b[0]] + b[1..];
    }
  }

  function FirstAt(s: string, c: char): nat {
    if s == "" || s[0] == c then 0 else 1 + FirstAt(s[1..], c)
  }

  lemma {:induction false} FirstAfter(m: string, x: string, c: char)
    requires c !in m
    ensures FirstAt(m + [c] + x, c) == |m|
  {
    if m != "" {
      assert (m + [c] + x)[1..] == m[1..] + [c] + x;
      FirstAfter(m[1..], x, c);
    }
  }

  lemma FirstSeparator(m: string, n: string, x: string, y: string, separator: char)
    requires separator !in m && separator !in n && m + [separator] + x == n + [separator] + y
    ensures m == n && x == y
  {
    var s := m + [separator] + x;
    FirstAfter(m, x, separator);
    FirstAfter(n, y, separator);
    assert m == s[..|m|] && n == s[..|n|] && x == s[|m| + 1..] && y == s[|n| + 1..];
  }

  /** The first elements of some groups, and everything but the first elements. */
  function Heads<T>(ss: seq<seq<T>>): seq<T> {
    if ss == [] then []
    else if ss[0] == [] then Heads(ss[1..])
    else [ss[0][0]] + Heads(ss[1..])
  }

  function Tails<T>(ss: seq<seq<T>>): seq<T> {
    if ss == [] then []
    else if ss[0] == [] then Tails(ss[1..])
    else ss[0][1..] + Tails(ss[1..])
  }

  lemma {:induction false} HeadsAppend<T>(a: seq<seq<T>>, last: seq<T>)
    requires last != []
    ensures Heads(a + [last]) == Heads(a) + [last[0]]
  {
    if a == [] {
      assert a + [last] == [last];
    } else {
      assert (a + [last])[1..] == a[1..] + [last];
      HeadsAppend(a[1..], last);
    }
  }

  lemma {:induction false} TailsAppend<T>(a: seq<seq<T>>, last: seq<T>)
    requires last != []
    ensures Tails(a + [last]) == Tails(a) + last[1..]
  {
    if a == [] {
      assert a + [last] == [last];
    } else {
      assert (a + [last])[1..] == a[1..] + [last];
      TailsAppend(a[1..], last);
    }
  }

  lemma HeadsPush<T>(ss: seq<seq<T>>, i: nat)
    requires i < |ss| && ss[i] != []
    ensures Heads(ss[..i + 1]) == Heads(ss[..i]) + [ss[i][0]]
    ensures Tails(ss[..i + 1]) == Tails(ss[..i]) + ss[i][1..]
  {
    assert ss[..i + 1] == ss[..i] + [ss[i]];
    HeadsAppend(ss[..i], ss[i]);
    TailsAppend(ss[..i], ss[i]);
  }

  lemma {:induction false} HeadsAt<T>(ss: seq<seq<T>>)
    requires forall i :: 0 <= i < |ss| ==> ss[i] != []
    ensures |Heads(ss)| == |ss| && forall i :: 0 <= i < |ss| ==> Heads(ss)[i] == ss[i][0]
  {
    if ss != [] { HeadsAt(ss[1..]); }
  }

  lemma {:induction false} HeadsAndTails<T>(ss: seq<seq<T>>)
    ensures multiset(Heads(ss)) + multiset(Tails(ss)) == multiset(Flatten(ss))
  {
    if ss != [] {
      HeadsAndTails(ss[1..]);
      if ss[0] != [] { assert ss[0] == [ss[0][0]] + ss[0][1..]; }
    }
  }
}
