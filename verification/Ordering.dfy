/**
 * Stable sorting and string orders. `Array.prototype.sort` is stable, so is `SortBy`. The runtime's
 * `localeCompare` enters every module as a comparison `le` that is a total preorder.
 */
module Ordering {
  import opened Sequences

  ghost predicate TotalPreorder<T(!new)>(le: (T, T) -> bool) {
    && (forall x, y :: le(x, y) || le(y, x))
    && (forall x, y, z :: le(x, y) && le(y, z) ==> le(x, z))
  }

  ghost predicate Antisymmetric<T(!new)>(le: (T, T) -> bool) {
    forall x, y :: le(x, y) && le(y, x) ==> x == y
  }

  ghost predicate Sorted<T>(s: seq<T>, le: (T, T) -> bool) {
    forall i, j :: 0 <= i < j < |s| ==> le(s[i], s[j])
  }

  function InsertBy<T>(x: T, s: seq<T>, le: (T, T) -> bool): seq<T> {
    if s == [] || le(x, s[0]) then [x] + s else [s[0]] + InsertBy(x, s[1..], le)
  }

  function SortBy<T>(s: seq<T>, le: (T, T) -> bool): seq<T> {
    if s == [] then [] else InsertBy(s[0], SortBy(s[1..], le), le)
  }

  lemma {:induction false} InsertByPermutes<T>(x: T, s: seq<T>, le: (T, T) -> bool)
    ensures multiset(InsertBy(x, s, le)) == multiset(s) + multiset{x}
  {
    if s == [] || le(x, s[0]) {
    } else {
      assert s == [s[0]] + s[1..];
      InsertByPermutes(x, s[1..], le);
    }
  }

  lemma {:induction false} SortByPermutes<T>(s: seq<T>, le: (T, T) -> bool)
    ensures multiset(SortBy(s, le)) == multiset(s)
    ensures |SortBy(s, le)| == |s|
  {
    if s != [] {
      assert s == [s[0]] + s[1..];
      SortByPermutes(s[1..], le);
      InsertByPermutes(s[0], SortBy(s[1..], le), le);
      assert |multiset(SortBy(s, le))| == |multiset(s)|;
    }
  }

  lemma {:induction false} InsertBySorted<T(!new)>(x: T, s: seq<T>, le: (T, T) -> bool)
    requires TotalPreorder(le) && Sorted(s, le)
    ensures Sorted(InsertBy(x, s, le), le)
  {
    if s == [] || le(x, s[0]) {
    } else {
      InsertBySorted(x, s[1..], le);
      InsertByPermutes(x, s[1..], le);
      var r := InsertBy(x, s[1..], le);
      forall k | 0 <= k < |r| ensures le(s[0], r[k]) {
        assert r[k] in multiset(r);
        assert r[k] in s[1..] || r[k] == x;
      }
    }
  }

  lemma {:induction false} SortBySorted<T(!new)>(s: seq<T>, le: (T, T) -> bool)
    requires TotalPreorder(le)
    ensures Sorted(SortBy(s, le), le)
  {
    if s != [] {
      SortBySorted(s[1..], le);
      InsertBySorted(s[0], SortBy(s[1..], le), le);
    }
  }

  /** Elements that tie keep the order they had. */
  lemma {:induction false} SortByIsStable<T(!new)>(s: seq<T>, le: (T, T) -> bool, keep: T -> bool)
    requires forall x, y :: keep(x) && keep(y) ==> le(x, y)
    ensures Filter(SortBy(s, le), keep) == Filter(s, keep)
  {
    if s != [] {
      SortByIsStable(s[1..], le, keep);
      InsertByIsStable(s[0], SortBy(s[1..], le), le, keep);
    }
  }

  lemma {:induction false} InsertByIsStable<T(!new)>(x: T, s: seq<T>, le: (T, T) -> bool, keep: T -> bool)
    requires forall x, y :: keep(x) && keep(y) ==> le(x, y)
    ensures Filter(InsertBy(x, s, le), keep) == (if keep(x) then [x] else []) + Filter(s, keep)
  {
    if s == [] || le(x, s[0]) {
      FilterFirst(x, s, keep);
    } else {
      InsertByIsStable(x, s[1..], le, keep);
      FilterFirst(s[0], InsertBy(x, s[1..], le), keep);
      if keep(x) { assert !keep(s[0]); }
    }
  }

  lemma FilterFirst<T(!new)>(x: T, s: seq<T>, keep: T -> bool)
    ensures Filter([x] + s, keep) == (if keep(x) then [x] else []) + Filter(s, keep)
  {
    assert ([x] + s)[1..] == s;
  }

  lemma SortByMembers<T>(s: seq<T>, le: (T, T) -> bool)
    ensures forall x :: x in SortBy(s, le) <==> x in s
  {
    SortByPermutes(s, le);
    forall x ensures x in SortBy(s, le) <==> x in s {
      assert x in multiset(SortBy(s, le)) <==> x in multiset(s);
    }
  }

  /** Comparing by a key keeps a total preorder. */
  lemma KeyedPreorder<T(!new), K(!new)>(le: (K, K) -> bool, key: T -> K, cmp: (T, T) -> bool)
    requires TotalPreorder(le)
    requires forall x, y :: cmp(x, y) == le(key(x), key(y))
    ensures TotalPreorder(cmp)
  {
    forall x, y ensures cmp(x, y) || cmp(y, x) {
      assert cmp(x, y) == le(key(x), key(y)) && cmp(y, x) == le(key(y), key(x));
    }
    forall x, y, z | cmp(x, y) && cmp(y, z) ensures cmp(x, z) {
      assert cmp(x, z) == le(key(x), key(z));
    }
  }

  /** Sorting something already sorted changes nothing. */
  lemma {:induction false} SortByFixed<T>(s: seq<T>, le: (T, T) -> bool)
    requires Sorted(s, le)
    ensures SortBy(s, le) == s
  {
    if s != [] {
      SortByFixed(s[1..], le);
    }
  }

  lemma TailMultiset<T>(a: seq<T>)
    requires a != []
    ensures multiset(a[1..]) == multiset(a) - multiset{a[0]}
  {
    assert a == [a[0]] + a[1..];
  }

  lemma HeadIsLeast<T(!new)>(a: seq<T>, x: T, le: (T, T) -> bool)
    requires Sorted(a, le) && TotalPreorder(le)
    requires x in a
    ensures le(a[0], x)
  {
    var i :| 0 <= i < |a| && a[i] == x;
    assert le(x, x);
  }

  /** No two distinct elements tie. */
  ghost predicate NoTies<T>(s: seq<T>, le: (T, T) -> bool) {
    forall x, y :: x in s && y in s && le(x, y) && le(y, x) ==> x == y
  }

  lemma SameHead<T(!new)>(a: seq<T>, b: seq<T>, le: (T, T) -> bool)
    requires multiset(a) == multiset(b) && a != [] && b != []
    requires TotalPreorder(le) && Sorted(a, le) && Sorted(b, le) && NoTies(a, le)
    ensures a[0] == b[0]
  {
    assert a[0] in multiset(b) && b[0] in multiset(a);
    HeadIsLeast(a, b[0], le);
    HeadIsLeast(b, a[0], le);
  }

  lemma TailKeepsOrder<T(!new)>(a: seq<T>, le: (T, T) -> bool)
    requires a != [] && Sorted(a, le) && NoTies(a, le)
    ensures Sorted(a[1..], le) && NoTies(a[1..], le)
  {
    forall x | x in a[1..] ensures x in a {}
  }

  /** Two sorted arrangements of the same elements are equal when no two distinct elements tie. */
  lemma {:induction false} SortedUnique<T(!new)>(a: seq<T>, b: seq<T>, le: (T, T) -> bool)
    requires multiset(a) == multiset(b)
    requires TotalPreorder(le) && Sorted(a, le) && Sorted(b, le) && NoTies(a, le) && NoTies(b, le)
    ensures a == b
    decreases |a|
  {
    assert |multiset(a)| == |multiset(b)|;
    if a != [] {
      SameTails(a, b, le);
      SortedUnique(a[1..], b[1..], le);
      assert a == [a[0]] + a[1..] && b == [b[0]] + b[1..];
    }
  }

  lemma SameTails<T(!new)>(a: seq<T>, b: seq<T>, le: (T, T) -> bool)
    requires multiset(a) == multiset(b) && a != [] && b != []
    requires TotalPreorder(le) && Sorted(a, le) && Sorted(b, le) && NoTies(a, le) && NoTies(b, le)
    ensures a[0] == b[0] && multiset(a[1..]) == multiset(b[1..])
    ensures Sorted(a[1..], le) && Sorted(b[1..], le) && NoTies(a[1..], le) && NoTies(b[1..], le)
  {
    SameHead(a, b, le);
    TailMultiset(a);
    TailMultiset(b);
    TailKeepsOrder(a, le);
    TailKeepsOrder(b, le);
  }

  /** Sorting does not depend on the arrangement it starts from when no two distinct elements tie. */
  lemma SortByPermutation<T(!new)>(a: seq<T>, b: seq<T>, le: (T, T) -> bool)
    requires TotalPreorder(le)
    requires multiset(a) == multiset(b) && NoTies(a, le)
    ensures SortBy(a, le) == SortBy(b, le)
  {
    SortBySorted(a, le);
    SortBySorted(b, le);
    SortByPermutes(a, le);
    SortByPermutes(b, le);
    SortByMembers(a, le);
    forall x | x in SortBy(b, le) ensures x in a { assert x in multiset(b); }
    SortedUnique(SortBy(a, le), SortBy(b, le), le);
  }

  /**
   * Orders characters by their UTF-16 code units. A character above U+FFFF begins with a surrogate, so it comes
   * before U+E000 to U+FFFF; two such characters are in the order of their scalar values.
   */
  function UnitRank(c: char): int {
    if 0xE000 <= c as int <= 0xFFFF then c as int + 0x110000 else c as int
  }

  /** The default order of `Array.prototype.sort` on strings and of `<` between strings: by UTF-16 code units. */
  predicate CodeUnitLe(a: string, b: string) {
    if a == [] then true
    else if b == [] then false
    else if a[0] != b[0] then UnitRank(a[0]) < UnitRank(b[0])
    else CodeUnitLe(a[1..], b[1..])
  }

  function Units(c: char): seq<int> {
    var n := c as int;
    if n <= 0xFFFF then [n] else [0xD800 + (n - 0x10000) / 0x400, 0xDC00 + (n - 0x10000) % 0x400]
  }

  /** The code units of a string: its UTF-16 encoding. */
  function Utf16(s: string): seq<int> {
    if s == "" then [] else Units(s[0]) + Utf16(s[1..])
  }

  predicate UnitsLe(a: seq<int>, b: seq<int>) {
    a == [] || (b != [] && (a[0] < b[0] || (a[0] == b[0] && UnitsLe(a[1..], b[1..]))))
  }

  lemma UnitsDecide(c: char, d: char, x: seq<int>, y: seq<int>)
    ensures c == d ==> (UnitsLe(Units(c) + x, Units(d) + y) <==> UnitsLe(x, y))
    ensures c != d ==> (UnitsLe(Units(c) + x, Units(d) + y) <==> UnitRank(c) < UnitRank(d))
  {
    var a, b := Units(c) + x, Units(d) + y;
    assert a[0] == Units(c)[0] && b[0] == Units(d)[0];
    assert a[|Units(c)|..] == x && b[|Units(d)|..] == y;
    if a[0] == b[0] && |Units(c)| == 2 {
      assert a[1..][0] == Units(c)[1] && b[1..][0] == Units(d)[1];
      assert a[1..][1..] == x && b[1..][1..] == y;
    }
  }

  /** Comparing characters by rank is comparing UTF-16 code units one by one. */
  lemma {:induction false} CodeUnitLeComparesUnits(a: string, b: string)
    ensures CodeUnitLe(a, b) <==> UnitsLe(Utf16(a), Utf16(b))
  {
    if a != "" && b != "" {
      UnitsDecide(a[0], b[0], Utf16(a[1..]), Utf16(b[1..]));
      if a[0] == b[0] { CodeUnitLeComparesUnits(a[1..], b[1..]); }
    }
  }

  lemma {:induction false} CodeUnitTotal(a: string, b: string)
    ensures CodeUnitLe(a, b) || CodeUnitLe(b, a)
    ensures CodeUnitLe(a, b) && CodeUnitLe(b, a) ==> a == b
  {
    if a != [] && b != [] && a[0] == b[0] {
      CodeUnitTotal(a[1..], b[1..]);
      if a[1..] == b[1..] {
        assert a == [a[0]] + a[1..] == [b[0]] + b[1..] == b;
      }
    }
  }

  lemma {:induction false} CodeUnitTransitive(a: string, b: string, c: string)
    requires CodeUnitLe(a, b) && CodeUnitLe(b, c)
    ensures CodeUnitLe(a, c)
  {
    if a != [] && b != [] && c != [] && a[0] == b[0] == c[0] {
      CodeUnitTransitive(a[1..], b[1..], c[1..]);
    }
  }

  lemma CodeUnitOrder()
    ensures TotalPreorder(CodeUnitLe) && Antisymmetric(CodeUnitLe)
  {
    forall a, b ensures CodeUnitLe(a, b) || CodeUnitLe(b, a) { CodeUnitTotal(a, b); }
    forall a, b | CodeUnitLe(a, b) && CodeUnitLe(b, a) ensures a == b { CodeUnitTotal(a, b); }
    forall a, b, c | CodeUnitLe(a, b) && CodeUnitLe(b, c) ensures CodeUnitLe(a, c) { CodeUnitTransitive(a, b, c); }
  }

  lemma {:induction false} SameStartDecidesNothing(start: string, x: string, y: string)
    ensures CodeUnitLe(start + x, start + y) <==> CodeUnitLe(x, y)
  {
    if start == "" {
      assert start + x == x && start + y == y;
    } else {
      assert (start + x)[1..] == start[1..] + x && (start + y)[1..] == start[1..] + y;
      SameStartDecidesNothing(start[1..], x, y);
    }
  }

  /** A prefix comes first, and so does the string with the lower character where two first differ, below the surrogates. */
  lemma CodeUnitAscends(start: string, c: char, d: char, x: string, y: string)
    requires c as int < d as int < 0xD800
    ensures CodeUnitLe(start, start + x)
    ensures CodeUnitLe(start + ([c] + x), start + ([d] + y)) && !CodeUnitLe(start + ([d] + y), start + ([c] + x))
  {
    SameStartDecidesNothing(start, "", x);
    assert start + "" == start;
    SameStartDecidesNothing(start, [c] + x, [d] + y);
    SameStartDecidesNothing(start, [d] + y, [c] + x);
  }
}
