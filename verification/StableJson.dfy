/** The canonical serializer and the contract text it is used on (backend/src/apiCoverage/specRevision.ts). */
module StableJson {
  import opened Sequences
  import opened Ordering
  import opened JsonText

  /**
   * The values the serializer is given. An object lists its members in insertion order; a number is
   * represented by the token `JSON.stringify` prints for it.
   */
  datatype Json =
    | Undefined
    | Null
    | Bool(b: bool)
    | Number(token: string)
    | Str(s: string)
    | Arr(elements: seq<Json>)
    | Obj(members: seq<Member>)

  datatype Member = Member(key: string, value: Json)

  // ---- stableStringify ----

  function StableStringify(v: Json): string {
    match v
    case Undefined => "null"
    case Null => "null"
    case Bool(b) => if b then "true" else "false"
    case Number(token) => token
    case Str(s) => Quote(s)
    case Arr(elements) => "[" + Join(Texts(elements), ",") + "]"
    case Obj(members) => "{" + Join(EntryTexts(SortBy(Entries(members), ByKey)), ",") + "}"
  }

  function Texts(elements: seq<Json>): seq<string> {
    if elements == [] then [] else [StableStringify(elements[0])] + Texts(elements[1..])
  }

  /** The defined members with their texts. */
  function Entries(members: seq<Member>): seq<(string, string)> {
    if members == [] then []
    else (if members[0].value.Undefined? then [] else [(members[0].key, StableStringify(members[0].value))]) + Entries(members[1..])
  }

  function ByKey(a: (string, string), b: (string, string)): bool {
    CodeUnitLe(a.0, b.0)
  }

  function EntryText(e: (string, string)): string {
    Quote(e.0) + ":" + e.1
  }

  function EntryTexts(entries: seq<(string, string)>): seq<string> {
    if entries == [] then [] else [EntryText(entries[0])] + EntryTexts(entries[1..])
  }

  // ---- Which values are the same ----

  predicate IsNumberCharacter(c: char) {
    '0' <= c <= '9' || c == '+' || c == '-' || c == '.' || c == 'e' || c == 'E'
  }

  ghost predicate IsNumberToken(t: string) {
    t != "" && forall i :: 0 <= i < |t| ==> IsNumberCharacter(t[i])
  }

  /** Every number of section 6 of RFC 8259 is a token: it is written with these characters. */
  lemma NumberCharacters(t: string)
    ensures IsNumberToken(t) <==> t != "" && forall i :: 0 <= i < |t| ==> t[i] in "0123456789+-.eE"
  {
    forall i | 0 <= i < |t| ensures IsNumberCharacter(t[i]) <==> t[i] in "0123456789+-.eE" {
      if '0' <= t[i] <= '9' { assert "0123456789+-.eE"[t[i] as int - '0' as int] == t[i]; }
    }
  }

  /** Object keys are distinct, and number tokens look like numbers. */
  ghost predicate WellFormed(v: Json) {
    match v
    case Undefined => true
    case Null => true
    case Bool(_) => true
    case Number(token) => IsNumberToken(token)
    case Str(_) => true
    case Arr(elements) => forall i :: 0 <= i < |elements| ==> WellFormed(elements[i])
    case Obj(members) =>
      && (forall i, j :: 0 <= i < j < |members| ==> members[i].key != members[j].key)
      && (forall i :: 0 <= i < |members| ==> WellFormed(members[i].value))
  }

  ghost predicate HasMember(members: seq<Member>, key: string) {
    exists i :: 0 <= i < |members| && members[i].key == key && !members[i].value.Undefined?
  }

  predicate BothDefine(m: Member, n: Member) {
    m.key == n.key && !m.value.Undefined? && !n.value.Undefined?
  }

  /** Equal up to the order of object keys and undefined members; a lone `undefined` counts as `null`. */
  ghost predicate SameValue(a: Json, b: Json)
    decreases a
  {
    match a
    case Undefined => b.Undefined? || b.Null?
    case Null => b.Undefined? || b.Null?
    case Bool(x) => b == Bool(x)
    case Number(t) => b == Number(t)
    case Str(s) => b == Str(s)
    case Arr(xs) => b.Arr? && |xs| == |b.elements| && forall i :: 0 <= i < |xs| ==> SameValue(xs[i], b.elements[i])
    case Obj(ms) =>
      && b.Obj?
      && (forall key :: HasMember(ms, key) <==> HasMember(b.members, key))
      && (forall i, j :: 0 <= i < |ms| && 0 <= j < |b.members| && BothDefine(ms[i], b.members[j])
                         ==> SameValue(ms[i].value, b.members[j].value))
  }

  // ---- Same values have the same text ----

  lemma {:induction false} EntriesExact(members: seq<Member>)
    requires WellFormed(Obj(members))
    ensures forall e :: e in Entries(members) <==>
              exists i :: 0 <= i < |members| && !members[i].value.Undefined?
                          && e == (members[i].key, StableStringify(members[i].value))
    ensures forall i, j :: 0 <= i < j < |Entries(members)| ==> Entries(members)[i].0 != Entries(members)[j].0
  {
    if members != [] {
      assert WellFormed(Obj(members[1..]));
      EntriesExact(members[1..]);
      var first := if members[0].value.Undefined? then [] else [(members[0].key, StableStringify(members[0].value))];
      forall e | e in Entries(members)
        ensures exists i :: 0 <= i < |members| && !members[i].value.Undefined? && e == (members[i].key, StableStringify(members[i].value))
      {
        if e in first {
          assert e == (members[0].key, StableStringify(members[0].value));
        } else {
          var i :| 0 <= i < |members[1..]| && !members[1..][i].value.Undefined?
                   && e == (members[1..][i].key, StableStringify(members[1..][i].value));
          assert members[i + 1] == members[1..][i];
        }
      }
      forall i | 0 <= i < |members| && !members[i].value.Undefined?
        ensures (members[i].key, StableStringify(members[i].value)) in Entries(members)
      {
        if i > 0 { assert members[i] == members[1..][i - 1]; }
      }
      forall j | 0 <= j < |Entries(members[1..])| ensures Entries(members[1..])[j].0 != members[0].key {
        assert Entries(members[1..])[j] in Entries(members[1..]);
      }
    }
  }

  lemma {:induction false} TextsAt(elements: seq<Json>)
    ensures |Texts(elements)| == |elements|
    ensures forall i :: 0 <= i < |elements| ==> Texts(elements)[i] == StableStringify(elements[i])
  {
    if elements != [] { TextsAt(elements[1..]); }
  }

  /** Entries can be sorted in one way only, because their keys differ. */
  lemma EntriesSortUniquely(ms: seq<Member>, ns: seq<Member>)
    requires WellFormed(Obj(ms)) && WellFormed(Obj(ns))
    requires forall e :: e in Entries(ms) <==> e in Entries(ns)
    ensures SortBy(Entries(ms), ByKey) == SortBy(Entries(ns), ByKey)
  {
    EntriesExact(ms);
    EntriesExact(ns);
    CodeUnitOrder();
    KeyedPreorder(CodeUnitLe, (e: (string, string)) => e.0, ByKey);
    var es, fs := Entries(ms), Entries(ns);
    assert Distinct(es) && Distinct(fs);
    assert multiset(es) == multiset(fs) by {
      DistinctMultiset(es);
      DistinctMultiset(fs);
      forall e ensures multiset(es)[e] == multiset(fs)[e] { assert e in es <==> e in fs; }
    }
    forall e, f | e in es && f in es && ByKey(e, f) && ByKey(f, e) ensures e == f {
      assert e.0 == f.0;
    }
    SortByPermutation(es, fs, ByKey);
  }

  /** Every entry of one object is an entry of the other when the other defines the same keys with the same texts. */
  lemma SameEntries(ms: seq<Member>, ns: seq<Member>, e: (string, string))
    requires WellFormed(Obj(ms)) && WellFormed(Obj(ns)) && e in Entries(ms)
    requires forall key :: HasMember(ms, key) <==> HasMember(ns, key)
    requires forall m, n :: m in ms && n in ns && BothDefine(m, n) ==> StableStringify(m.value) == StableStringify(n.value)
    ensures e in Entries(ns)
  {
    EntriesExact(ms);
    EntriesExact(ns);
    var i :| 0 <= i < |ms| && !ms[i].value.Undefined? && e == (ms[i].key, StableStringify(ms[i].value));
    assert HasMember(ms, e.0);
    var j :| 0 <= j < |ns| && ns[j].key == e.0 && !ns[j].value.Undefined?;
    assert BothDefine(ms[i], ns[j]);
  }

  /** Canonical: values that are the same serialize identically. */
  lemma {:induction false} SameValueSameText(a: Json, b: Json)
    requires WellFormed(a) && WellFormed(b) && SameValue(a, b)
    ensures StableStringify(a) == StableStringify(b)
    decreases a
  {
    match a
    case Arr(xs) =>
      TextsAt(xs);
      TextsAt(b.elements);
      forall i | 0 <= i < |xs| ensures Texts(xs)[i] == Texts(b.elements)[i] { SameValueSameText(xs[i], b.elements[i]); }
      assert Texts(xs) == Texts(b.elements);
    case Obj(ms) =>
      forall m, n | m in ms && n in b.members && BothDefine(m, n) ensures StableStringify(m.value) == StableStringify(n.value) {
        SameValueSameText(m.value, n.value);
      }
      forall e | e in Entries(ms) ensures e in Entries(b.members) { SameEntries(ms, b.members, e); }
      forall m, n | m in b.members && n in ms && BothDefine(m, n) ensures StableStringify(m.value) == StableStringify(n.value) {
        assert BothDefine(n, m);
      }
      forall e | e in Entries(b.members) ensures e in Entries(ms) { SameEntries(b.members, ms, e); }
      EntriesSortUniquely(ms, b.members);
    case _ =>
  }

  // ---- Different values have different texts ----

  /** What may follow a value inside a larger text. */
  ghost predicate Delimited(x: string) {
    x == "" || x[0] == ',' || x[0] == ']' || x[0] == '}'
  }

  function Shape(v: Json): int {
    match v
    case Undefined => 0
    case Null => 0
    case Bool(b) => if b then 1 else 2
    case Number(_) => 3
    case Str(_) => 4
    case Arr(_) => 5
    case Obj(_) => 6
  }

  /** How far a text goes on looking like a number. */
  function NumberRun(s: string): nat {
    if s == "" || !IsNumberCharacter(s[0]) then 0 else 1 + NumberRun(s[1..])
  }

  lemma {:induction false} TokenIsWholeRun(t: string, x: string)
    requires (forall i :: 0 <= i < |t| ==> IsNumberCharacter(t[i])) && Delimited(x)
    ensures NumberRun(t + x) == |t|
  {
    if t == "" {
      assert t + x == x;
    } else {
      assert (t + x)[1..] == t[1..] + x;
      TokenIsWholeRun(t[1..], x);
    }
  }

  lemma NumberPrefixFree(t: string, u: string, x: string, y: string)
    requires IsNumberToken(t) && IsNumberToken(u)
    requires Delimited(x) && Delimited(y) && t + x == u + y
    ensures t == u && x == y
  {
    TokenIsWholeRun(t, x);
    TokenIsWholeRun(u, y);
    assert t == (t + x)[..|t|] && u == (u + y)[..|u|];
    assert x == (t + x)[|t|..] && y == (u + y)[|u|..];
  }

  /** A list of texts from its second element on. */
  function Following(texts: seq<string>): string {
    if texts == [] then "" else "," + texts[0] + Following(texts[1..])
  }

  lemma {:induction false} JoinFollowing(texts: seq<string>)
    ensures texts != [] ==> Join(texts, ",") == texts[0] + Following(texts[1..])
  {
    if |texts| > 1 {
      JoinFollowing(texts[1..]);
    }
  }

  lemma {:induction false} EntryTextsAt(entries: seq<(string, string)>)
    ensures |EntryTexts(entries)| == |entries|
    ensures forall i :: 0 <= i < |entries| ==> EntryTexts(entries)[i] == EntryText(entries[i])
  {
    if entries != [] { EntryTextsAt(entries[1..]); }
  }

  lemma SameStart(first: string, second: string, x: string, y: string)
    requires |first| == |second| && first + x == second + y
    ensures first == second && x == y
  {
    assert first == (first + x)[..|first|] && second == (second + y)[..|second|];
    assert x == (first + x)[|first|..] && y == (second + y)[|second|..];
  }

  /** Whether more elements follow shows in the next character. */
  lemma FollowingStarts(texts: seq<string>, close: char, x: string)
    requires close != ','
    ensures Delimited([close]) ==> Delimited(Following(texts) + [close] + x)
    ensures (Following(texts) + [close] + x)[0] == ',' <==> texts != []
    ensures texts != [] ==> (Following(texts) + [close] + x)[1..] == texts[0] + (Following(texts[1..]) + [close] + x)
    ensures texts == [] ==> (Following(texts) + [close] + x)[1..] == x
  {
  }

  /** Texts of two values inside larger texts can be told apart: the values are the same and so is what follows. */
  lemma {:induction false} TextSplits(a: Json, b: Json, x: string, y: string)
    requires WellFormed(a) && WellFormed(b) && Delimited(x) && Delimited(y)
    requires StableStringify(a) + x == StableStringify(b) + y
    ensures SameValue(a, b) && x == y
    decreases a, 2, 0
  {
    assert (StableStringify(a) + x)[0] == StableStringify(a)[0] && (StableStringify(b) + y)[0] == StableStringify(b)[0];
    assert Shape(a) == Shape(b);
    match a
    case Undefined => SameStart("null", "null", x, y);
    case Null => SameStart("null", "null", x, y);
    case Bool(p) => SameStart(StableStringify(a), StableStringify(b), x, y);
    case Number(t) => NumberPrefixFree(t, b.token, x, y);
    case Str(s) => QuotePrefixFree(s, b.s, x, y);
    case Arr(xs) => ArraySplits(a, b, x, y);
    case Obj(ms) => ObjectSplits(a, b, x, y);
  }

  /** The elements after the first, one by one. */
  lemma {:induction false} ElementsSplit(whole: Json, xs: seq<Json>, ys: seq<Json>, x: string, y: string)
    requires (forall v :: v in xs ==> v < whole && WellFormed(v)) && (forall v :: v in ys ==> WellFormed(v))
    requires Following(Texts(xs)) + "]" + x == Following(Texts(ys)) + "]" + y
    ensures |xs| == |ys| && (forall i :: 0 <= i < |xs| ==> SameValue(xs[i], ys[i])) && x == y
    decreases whole, 0, |xs|
  {
    FollowingStarts(Texts(xs), ']', x);
    FollowingStarts(Texts(ys), ']', y);
    if xs != [] {
      assert xs[0] in xs && ys[0] in ys;
      forall v | v in xs[1..] ensures v in xs {}
      forall v | v in ys[1..] ensures v in ys {}
      FollowingStarts(Texts(xs[1..]), ']', x);
      FollowingStarts(Texts(ys[1..]), ']', y);
      TextSplits(xs[0], ys[0], Following(Texts(xs[1..])) + "]" + x, Following(Texts(ys[1..])) + "]" + y);
      ElementsSplit(whole, xs[1..], ys[1..], x, y);
    }
  }

  /** The text of a list, with its opening bracket exchanged for a comma, is what `Following` prints. */
  lemma Reopened(open: char, texts: seq<string>, close: char, x: string)
    requires texts != [] ==> texts[0] != ""
    ensures var text := [open] + Join(texts, ",") + [close] + x;
            && |text| >= 2 && text[1] == (if texts == [] then close else texts[0][0])
            && (texts == [] ==> text[1..] == [close] + x)
            && (texts != [] ==> [','] + text[1..] == Following(texts) + [close] + x)
  {
    JoinFollowing(texts);
    AfterOpening(open, Join(texts, ","), [close] + x);
    assert [open] + Join(texts, ",") + [close] + x == [open] + Join(texts, ",") + ([close] + x);
    if texts != [] { StartsWith(texts[0], Following(texts[1..]), [close] + x); }
  }

  lemma AfterOpening(open: char, list: string, rest: string)
    ensures ([open] + list + rest)[1..] == list + rest
  {
  }

  lemma StartsWith(first: string, more: string, rest: string)
    requires first != ""
    ensures (first + more + rest)[0] == first[0]
  {
  }

  lemma {:induction false} ArraySplits(a: Json, b: Json, x: string, y: string)
    requires a.Arr? && b.Arr? && WellFormed(a) && WellFormed(b)
    requires StableStringify(a) + x == StableStringify(b) + y
    ensures SameValue(a, b) && x == y
    decreases a, 1, 0
  {
    var ts, us := Texts(a.elements), Texts(b.elements);
    TextsAt(a.elements);
    TextsAt(b.elements);
    Reopened('[', ts, ']', x);
    Reopened('[', us, ']', y);
    assert ts == [] <==> us == [];
    assert Following(ts) + "]" + x == Following(us) + "]" + y by {
      if ts == [] { assert Following(ts) + "]" + x == "]" + x && Following(us) + "]" + y == "]" + y; }
    }
    ElementsSplit(a, a.elements, b.elements, x, y);
  }

  /** Each entry is the text of a defined member. */
  ghost predicate EntryOf(v: Json, e: (string, string))
    requires v.Obj?
  {
    exists i :: 0 <= i < |v.members| && !v.members[i].value.Undefined? && e == (v.members[i].key, StableStringify(v.members[i].value))
  }

  lemma EntryRegroup(e: (string, string), rest: string)
    ensures EntryText(e) + rest == Quote(e.0) + (":" + (e.1 + rest))
  {
  }

  lemma {:induction false} EntrySplits(a: Json, b: Json, e: (string, string), f: (string, string), x: string, y: string)
    requires a.Obj? && b.Obj? && WellFormed(a) && WellFormed(b) && EntryOf(a, e) && EntryOf(b, f)
    requires Delimited(x) && Delimited(y) && EntryText(e) + x == EntryText(f) + y
    ensures e == f && x == y
    decreases a, 0, 0
  {
    EntryRegroup(e, x);
    EntryRegroup(f, y);
    QuotePrefixFree(e.0, f.0, ":" + (e.1 + x), ":" + (f.1 + y));
    SameStart(":", ":", e.1 + x, f.1 + y);
    var i :| 0 <= i < |a.members| && !a.members[i].value.Undefined? && e == (a.members[i].key, StableStringify(a.members[i].value));
    var j :| 0 <= j < |b.members| && !b.members[j].value.Undefined? && f == (b.members[j].key, StableStringify(b.members[j].value));
    TextSplits(a.members[i].value, b.members[j].value, x, y);
    assert e.1 == (e.1 + x)[..|e.1 + x| - |x|] == f.1;
  }

  /** Whether more members follow shows in the next character, and the next member's text comes after it. */
  lemma EntriesGoOn(es: seq<(string, string)>, x: string)
    ensures var text := Following(EntryTexts(es)) + "}" + x;
            && Delimited(text) && (text[0] == ',' <==> es != []) && (es == [] ==> text[1..] == x)
            && (es != [] ==> text[1..] == EntryText(es[0]) + (Following(EntryTexts(es[1..])) + "}" + x))
  {
    FollowingStarts(EntryTexts(es), '}', x);
    if es != [] { assert EntryTexts(es)[1..] == EntryTexts(es[1..]); }
  }

  lemma {:induction false} EntriesSplit(a: Json, b: Json, es: seq<(string, string)>, fs: seq<(string, string)>, x: string, y: string)
    requires a.Obj? && b.Obj? && WellFormed(a) && WellFormed(b)
    requires (forall e :: e in es ==> EntryOf(a, e)) && (forall f :: f in fs ==> EntryOf(b, f))
    requires Following(EntryTexts(es)) + "}" + x == Following(EntryTexts(fs)) + "}" + y
    ensures es == fs && x == y
    decreases a, 0, |es| + 1
  {
    EntriesGoOn(es, x);
    EntriesGoOn(fs, y);
    if es != [] {
      EntriesGoOn(es[1..], x);
      EntriesGoOn(fs[1..], y);
      EntrySplits(a, b, es[0], fs[0], Following(EntryTexts(es[1..])) + "}" + x, Following(EntryTexts(fs[1..])) + "}" + y);
      EntriesSplit(a, b, es[1..], fs[1..], x, y);
      assert es == [es[0]] + es[1..] && fs == [fs[0]] + fs[1..];
    }
  }

  lemma SortedEntriesOf(v: Json)
    requires v.Obj? && WellFormed(v)
    ensures forall e :: e in SortBy(Entries(v.members), ByKey) <==> EntryOf(v, e)
    ensures forall e, f :: EntryOf(v, e) && EntryOf(v, f) && e.0 == f.0 ==> e == f
  {
    EntriesExact(v.members);
    SortByMembers(Entries(v.members), ByKey);
  }

  /** Objects with the same sorted entries define the same keys, with the same texts. */
  lemma SameSortedEntries(a: Json, b: Json)
    requires a.Obj? && b.Obj? && WellFormed(a) && WellFormed(b)
    requires SortBy(Entries(a.members), ByKey) == SortBy(Entries(b.members), ByKey)
    ensures forall key :: HasMember(a.members, key) <==> HasMember(b.members, key)
    ensures forall i, j :: 0 <= i < |a.members| && 0 <= j < |b.members| && BothDefine(a.members[i], b.members[j])
              ==> StableStringify(a.members[i].value) == StableStringify(b.members[j].value)
  {
    SortedEntriesOf(a);
    SortedEntriesOf(b);
    assert forall e :: EntryOf(a, e) <==> EntryOf(b, e);
    forall key ensures HasMember(a.members, key) ==> HasMember(b.members, key) { DefinesToo(a, b, key); }
    forall key ensures HasMember(b.members, key) ==> HasMember(a.members, key) { DefinesToo(b, a, key); }
    forall i, j | 0 <= i < |a.members| && 0 <= j < |b.members| && BothDefine(a.members[i], b.members[j])
      ensures StableStringify(a.members[i].value) == StableStringify(b.members[j].value)
    {
      assert EntryOf(a, (a.members[i].key, StableStringify(a.members[i].value)));
      assert EntryOf(b, (b.members[j].key, StableStringify(b.members[j].value)));
    }
  }

  lemma DefinesToo(a: Json, b: Json, key: string)
    requires a.Obj? && b.Obj? && forall e :: EntryOf(a, e) ==> EntryOf(b, e)
    ensures HasMember(a.members, key) ==> HasMember(b.members, key)
  {
    if HasMember(a.members, key) {
      var i :| 0 <= i < |a.members| && a.members[i].key == key && !a.members[i].value.Undefined?;
      assert EntryOf(a, (key, StableStringify(a.members[i].value)));
      assert EntryOf(b, (key, StableStringify(a.members[i].value)));
    }
  }

  lemma {:induction false} ObjectSplits(a: Json, b: Json, x: string, y: string)
    requires a.Obj? && b.Obj? && WellFormed(a) && WellFormed(b)
    requires StableStringify(a) + x == StableStringify(b) + y
    ensures SameValue(a, b) && x == y
    decreases a, 1, 0
  {
    var es, fs := SortBy(Entries(a.members), ByKey), SortBy(Entries(b.members), ByKey);
    SortedEntriesOf(a);
    SortedEntriesOf(b);
    EntryTextsAt(es);
    EntryTextsAt(fs);
    Reopened('{', EntryTexts(es), '}', x);
    Reopened('{', EntryTexts(fs), '}', y);
    assert es == [] <==> fs == [];
    assert Following(EntryTexts(es)) + "}" + x == Following(EntryTexts(fs)) + "}" + y by {
      if es == [] { assert Following(EntryTexts(es)) + "}" + x == "}" + x && Following(EntryTexts(fs)) + "}" + y == "}" + y; }
    }
    EntriesSplit(a, b, es, fs, x, y);
    SameSortedEntries(a, b);
    forall i, j | 0 <= i < |a.members| && 0 <= j < |b.members| && BothDefine(a.members[i], b.members[j])
      ensures SameValue(a.members[i].value, b.members[j].value)
    {
      TextSplits(a.members[i].value, b.members[j].value, "", "");
    }
  }

  /** Canonical and injective: two values have the same text if and only if they are the same value. */
  lemma CanonicalAndInjective(a: Json, b: Json)
    requires WellFormed(a) && WellFormed(b)
    ensures StableStringify(a) == StableStringify(b) <==> SameValue(a, b)
  {
    if SameValue(a, b) { SameValueSameText(a, b); }
    if StableStringify(a) == StableStringify(b) {
      assert StableStringify(a) + "" == StableStringify(b) + "";
      TextSplits(a, b, "", "");
    }
  }

  // ---- What the text looks like ----

  /** An object's text lists its defined members, each once, by ascending key, as quoted key, colon and value text. */
  ghost predicate ListsMembers(text: string, v: Json, es: seq<(string, string)>)
    requires v.Obj?
  {
    && (forall e :: e in es <==> EntryOf(v, e))
    && (forall i, j :: 0 <= i < j < |es| ==> CodeUnitLe(es[i].0, es[j].0) && es[i].0 != es[j].0)
    && exists parts: seq<string> :: |parts| == |es| && text == "{" + Join(parts, ",") + "}"
         && forall i :: 0 <= i < |es| ==> parts[i] == Quote(es[i].0) + ":" + es[i].1
  }

  /** The text of every value in the notation of RFC 8259, keys in code-unit order, no white space. */
  lemma TextShape(v: Json)
    requires WellFormed(v)
    ensures v.Undefined? || v.Null? ==> StableStringify(v) == "null"
    ensures v.Bool? ==> StableStringify(v) == if v.b then "true" else "false"
    ensures v.Number? ==> StableStringify(v) == v.token
    ensures v.Str? ==> ReadString(StableStringify(v)[1..]) == (v.s, "")
    ensures v.Arr? ==> exists parts: seq<string> :: |parts| == |v.elements| && StableStringify(v) == "[" + Join(parts, ",") + "]"
                         && forall i :: 0 <= i < |parts| ==> parts[i] == StableStringify(v.elements[i])
    ensures v.Obj? ==> exists es :: ListsMembers(StableStringify(v), v, es)
  {
    match v
    case Str(s) =>
      QuoteReadsBack(s, "");
      assert Quote(s) + "" == Quote(s);
    case Arr(elements) => TextsAt(elements);
    case Obj(members) => ObjectShape(v);
    case _ =>
  }

  lemma ObjectShape(v: Json)
    requires WellFormed(v) && v.Obj?
    ensures ListsMembers(StableStringify(v), v, SortBy(Entries(v.members), ByKey))
  {
    var entries := Entries(v.members);
    var es := SortBy(entries, ByKey);
    SortedEntriesOf(v);
    EntryTextsAt(es);
    AscendingKeys(v);
    assert StableStringify(v) == "{" + Join(EntryTexts(es), ",") + "}";
  }

  lemma AscendingKeys(v: Json)
    requires WellFormed(v) && v.Obj?
    ensures var es := SortBy(Entries(v.members), ByKey);
            forall i, j :: 0 <= i < j < |es| ==> CodeUnitLe(es[i].0, es[j].0) && es[i].0 != es[j].0
  {
    var entries := Entries(v.members);
    var es, keys := SortBy(entries, ByKey), (e: (string, string)) => e.0;
    EntriesExact(v.members);
    CodeUnitOrder();
    KeyedPreorder(CodeUnitLe, keys, ByKey);
    SortBySorted(entries, ByKey);
    SortByPermutes(entries, ByKey);
    MapPermutation(entries, es, keys);
    DistinctPermutation(Map(entries, keys), Map(es, keys));
    forall i, j | 0 <= i < j < |es| ensures CodeUnitLe(es[i].0, es[j].0) && es[i].0 != es[j].0 {
      assert ByKey(es[i], es[j]) && Map(es, keys)[i] != Map(es, keys)[j];
    }
  }

  // ---- The contract text that is hashed ----

  datatype Response = Response(statusCode: Json, contentTypes: Json)

  datatype Operation = Operation(
    verb: string, path: string, parameters: Json, requestBody: Json, responses: seq<Response>, security: Json)

  function OperationKey(o: Operation): string {
    Join([o.verb, o.path], " ")
  }

  function ByOperationKey(le: (string, string) -> bool): (Operation, Operation) -> bool {
    (a: Operation, b: Operation) => le(OperationKey(a), OperationKey(b))
  }

  function ResponseJson(r: Response): Json {
    Obj([Member("statusCode", r.statusCode), Member("contentTypes", r.contentTypes)])
  }

  function OperationJson(o: Operation): Json {
    Obj([Member("method", Str(o.verb)), Member("path", Str(o.path)), Member("parameters", o.parameters),
         Member("requestBody", o.requestBody),
         Member("responses", Arr(Map(o.responses, ResponseJson))),
         Member("security", o.security)])
  }

  /** The names the contract is written with. */
  lemma MemberNames(o: Operation, r: Response, operations: seq<Operation>, securitySchemes: Json, le: (string, string) -> bool)
    ensures var ms := Contract(operations, securitySchemes, le).members;
            |ms| == 2 && ms[0].key == "operations" && ms[1].key == "securitySchemes"
    ensures var ms := OperationJson(o).members;
            && |ms| == 6 && ms[0].key == "method" && ms[1].key == "path" && ms[2].key == "parameters"
            && ms[3].key == "requestBody" && ms[4].key == "responses" && ms[5].key == "security"
    ensures var ms := ResponseJson(r).members;
            |ms| == 2 && ms[0].key == "statusCode" && ms[1].key == "contentTypes"
  {
  }

  function Contract(operations: seq<Operation>, securitySchemes: Json, le: (string, string) -> bool): Json {
    Obj([Member("operations", SortedOperations(operations, le)), Member("securitySchemes", securitySchemes)])
  }

  function SortedOperations(operations: seq<Operation>, le: (string, string) -> bool): Json {
    Arr(Map(SortBy(operations, ByOperationKey(le)), OperationJson))
  }

  /** The text `specificationRevision` hashes. */
  function RevisionText(operations: seq<Operation>, securitySchemes: Json, le: (string, string) -> bool): string {
    StableStringify(Contract(operations, securitySchemes, le))
  }

  /** Methods hold no space, so method and path can be read off the sort key. */
  lemma {:induction false} KeyIdentifies(a: Operation, b: Operation)
    requires ' ' !in a.verb && ' ' !in b.verb && OperationKey(a) == OperationKey(b)
    ensures a.verb == b.verb && a.path == b.path
  {
    KeyText(a);
    KeyText(b);
    FirstSpace(a.verb, b.verb, a.path, b.path);
  }

  lemma KeyText(o: Operation)
    ensures OperationKey(o) == o.verb + " " + o.path
  {
    assert [o.verb, o.path][1..] == [o.path];
    assert Join([o.path], " ") == o.path;
  }

  function SpaceAt(s: string): nat {
    if s == "" || s[0] == ' ' then 0 else 1 + SpaceAt(s[1..])
  }

  lemma {:induction false} SpaceEndsMethod(m: string, p: string)
    requires ' ' !in m
    ensures SpaceAt(m + " " + p) == |m|
  {
    if m != "" {
      assert (m + " " + p)[1..] == m[1..] + " " + p;
      SpaceEndsMethod(m[1..], p);
    }
  }

  lemma FirstSpace(m: string, n: string, p: string, q: string)
    requires ' ' !in m && ' ' !in n && m + " " + p == n + " " + q
    ensures m == n && p == q
  {
    SpaceEndsMethod(m, p);
    SpaceEndsMethod(n, q);
    SameStart(m + " ", n + " ", p, q);
    assert m == (m + " ")[..|m|] && n == (n + " ")[..|n|];
  }

  /** The revision does not depend on the order of operations that differ in method or path. */
  lemma RevisionIgnoresOperationOrder(a: seq<Operation>, b: seq<Operation>, securitySchemes: Json, le: (string, string) -> bool)
    requires TotalPreorder(le) && Antisymmetric(le) && multiset(a) == multiset(b)
    requires forall o :: o in a ==> ' ' !in o.verb
    requires forall o, p :: o in a && p in a && o.verb == p.verb && o.path == p.path ==> o == p
    ensures RevisionText(a, securitySchemes, le) == RevisionText(b, securitySchemes, le)
  {
    KeyedPreorder(le, OperationKey, ByOperationKey(le));
    forall o, p | o in a && p in a && ByOperationKey(le)(o, p) && ByOperationKey(le)(p, o) ensures o == p {
      KeyIdentifies(o, p);
    }
    SortByPermutation(a, b, ByOperationKey(le));
  }

  /** As a member of an object, an absent value equals only an absent value. */
  ghost predicate SameMember(a: Json, b: Json) {
    if a.Undefined? || b.Undefined? then a == b else SameValue(a, b)
  }

  lemma SameMembersAt(ms: seq<Member>, ns: seq<Member>, i: nat)
    requires |ms| == |ns| && i < |ms| && SameValue(Obj(ms), Obj(ns))
    requires forall k :: 0 <= k < |ms| ==> ms[k].key == ns[k].key
    requires forall j, k :: 0 <= j < k < |ms| ==> ms[j].key != ms[k].key
    ensures SameMember(ms[i].value, ns[i].value)
  {
    assert HasMember(ms, ms[i].key) <==> HasMember(ns, ms[i].key);
    if !ms[i].value.Undefined? { assert HasMember(ms, ms[i].key); }
    if !ns[i].value.Undefined? { assert HasMember(ns, ns[i].key); }
    if !ms[i].value.Undefined? && !ns[i].value.Undefined? { assert BothDefine(ms[i], ns[i]); }
  }

  /** Two objects that list the same keys are the same value exactly when they are member by member. */
  lemma SameRecords(ms: seq<Member>, ns: seq<Member>)
    requires |ms| == |ns| && forall i :: 0 <= i < |ms| ==> ms[i].key == ns[i].key
    requires forall j, k :: 0 <= j < k < |ms| ==> ms[j].key != ms[k].key
    ensures SameValue(Obj(ms), Obj(ns)) <==> forall i :: 0 <= i < |ms| ==> SameMember(ms[i].value, ns[i].value)
  {
    if SameValue(Obj(ms), Obj(ns)) {
      forall i | 0 <= i < |ms| ensures SameMember(ms[i].value, ns[i].value) { SameMembersAt(ms, ns, i); }
    }
    if forall i :: 0 <= i < |ms| ==> SameMember(ms[i].value, ns[i].value) {
      forall key ensures HasMember(ms, key) <==> HasMember(ns, key) {
        if i :| 0 <= i < |ms| && ms[i].key == key && !ms[i].value.Undefined? { assert !ns[i].value.Undefined?; }
        if i :| 0 <= i < |ns| && ns[i].key == key && !ns[i].value.Undefined? { assert !ms[i].value.Undefined?; }
      }
      forall i, j | 0 <= i < |ms| && 0 <= j < |ns| && BothDefine(ms[i], ns[j]) ensures SameValue(ms[i].value, ns[j].value) {
        assert i == j;
      }
    }
  }

  ghost predicate SameResponse(a: Response, b: Response) {
    SameMember(a.statusCode, b.statusCode) && SameMember(a.contentTypes, b.contentTypes)
  }

  ghost predicate SameResponses(a: seq<Response>, b: seq<Response>) {
    |a| == |b| && forall i :: 0 <= i < |a| ==> SameResponse(a[i], b[i])
  }

  /** Field by field, as the contract reads an operation. */
  ghost predicate SameOperation(a: Operation, b: Operation) {
    && a.verb == b.verb && a.path == b.path
    && SameMember(a.parameters, b.parameters) && SameMember(a.requestBody, b.requestBody)
    && SameResponses(a.responses, b.responses) && SameMember(a.security, b.security)
  }

  ghost predicate SameOperations(a: seq<Operation>, b: seq<Operation>) {
    |a| == |b| && forall i :: 0 <= i < |a| ==> SameOperation(a[i], b[i])
  }

  lemma SameResponseJson(a: Response, b: Response)
    ensures SameValue(ResponseJson(a), ResponseJson(b)) <==> SameResponse(a, b)
  {
    var ms, ns := ResponseJson(a).members, ResponseJson(b).members;
    SameRecords(ms, ns);
    assert SameMember(ms[0].value, ns[0].value) <==> SameMember(a.statusCode, b.statusCode);
    assert SameMember(ms[1].value, ns[1].value) <==> SameMember(a.contentTypes, b.contentTypes);
  }

  lemma SameResponsesJson(a: seq<Response>, b: seq<Response>)
    ensures SameMember(Arr(Map(a, ResponseJson)), Arr(Map(b, ResponseJson))) <==> SameResponses(a, b)
  {
    var xs, ys := Map(a, ResponseJson), Map(b, ResponseJson);
    if |a| == |b| {
      forall i | 0 <= i < |a| ensures SameValue(xs[i], ys[i]) <==> SameResponse(a[i], b[i]) { SameResponseJson(a[i], b[i]); }
    }
  }

  lemma OperationKeysDiffer(o: Operation)
    ensures var ms := OperationJson(o).members;
            |ms| == 6 && forall j, k :: 0 <= j < k < 6 ==> ms[j].key != ms[k].key
  {
    assert "path"[2] != "parameters"[2] && "method"[0] == 'm' && "requestBody"[2] == 'q' && "responses"[2] == 's' && "security"[0] == 's';
  }

  lemma SameStrings(s: string, t: string)
    ensures SameMember(Str(s), Str(t)) <==> s == t
  {
    assert SameValue(Str(s), Str(t)) <==> Str(t) == Str(s);
  }

  lemma SameOperationMembers(a: Operation, b: Operation)
    ensures var ms, ns := OperationJson(a).members, OperationJson(b).members;
            && |ms| == |ns| == 6 && (SameMember(ms[0].value, ns[0].value) <==> a.verb == b.verb)
            && (SameMember(ms[1].value, ns[1].value) <==> a.path == b.path)
            && ms[2].value == a.parameters && ns[2].value == b.parameters && ms[3].value == a.requestBody && ns[3].value == b.requestBody
            && (SameMember(ms[4].value, ns[4].value) <==> SameResponses(a.responses, b.responses))
            && ms[5].value == a.security && ns[5].value == b.security
  {
    SameStrings(a.verb, b.verb);
    SameStrings(a.path, b.path);
    SameResponsesJson(a.responses, b.responses);
  }

  lemma SameOperationJson(a: Operation, b: Operation)
    ensures SameValue(OperationJson(a), OperationJson(b)) <==> SameOperation(a, b)
  {
    OperationKeysDiffer(a);
    SameRecords(OperationJson(a).members, OperationJson(b).members);
    SameOperationMembers(a, b);
  }

  lemma SameOperationsJson(a: seq<Operation>, b: seq<Operation>)
    ensures SameMember(Arr(Map(a, OperationJson)), Arr(Map(b, OperationJson))) <==> SameOperations(a, b)
  {
    var xs, ys := Map(a, OperationJson), Map(b, OperationJson);
    if |a| == |b| {
      forall i | 0 <= i < |a| ensures SameValue(xs[i], ys[i]) <==> SameOperation(a[i], b[i]) { SameOperationJson(a[i], b[i]); }
    }
  }

  /** The operations in the order they are hashed: all of them, by method, a space and path. */
  lemma OperationsAreSorted(operations: seq<Operation>, le: (string, string) -> bool)
    requires TotalPreorder(le)
    ensures var sorted := SortBy(operations, ByOperationKey(le));
            && multiset(sorted) == multiset(operations)
            && forall i, j :: 0 <= i < j < |sorted| ==>
                 le(sorted[i].verb + " " + sorted[i].path, sorted[j].verb + " " + sorted[j].path)
  {
    var sorted := SortBy(operations, ByOperationKey(le));
    KeyedPreorder(le, OperationKey, ByOperationKey(le));
    SortByPermutes(operations, ByOperationKey(le));
    SortBySorted(operations, ByOperationKey(le));
    forall i, j | 0 <= i < j < |sorted| ensures le(sorted[i].verb + " " + sorted[i].path, sorted[j].verb + " " + sorted[j].path) {
      KeyText(sorted[i]);
      KeyText(sorted[j]);
      assert ByOperationKey(le)(sorted[i], sorted[j]);
    }
  }

  /**
   * Two specifications have the same text to hash exactly when their sorted operations agree in method, path and, as
   * values, in parameters, request body, status codes and content types of the responses and security, and their
   * schemes are the same value.
   */
  lemma RevisionTextIdentifiesContract(
    a: seq<Operation>, b: seq<Operation>, schemesA: Json, schemesB: Json, le: (string, string) -> bool)
    requires WellFormed(Contract(a, schemesA, le)) && WellFormed(Contract(b, schemesB, le))
    ensures RevisionText(a, schemesA, le) == RevisionText(b, schemesB, le) <==>
            && SameOperations(SortBy(a, ByOperationKey(le)), SortBy(b, ByOperationKey(le)))
            && SameMember(schemesA, schemesB)
  {
    CanonicalAndInjective(Contract(a, schemesA, le), Contract(b, schemesB, le));
    SamePair(SortedOperations(a, le), SortedOperations(b, le), schemesA, schemesB);
    SameOperationsJson(SortBy(a, ByOperationKey(le)), SortBy(b, ByOperationKey(le)));
  }

  lemma SamePair(v: Json, v': Json, w: Json, w': Json)
    ensures SameValue(Obj([Member("operations", v), Member("securitySchemes", w)]), Obj([Member("operations", v'), Member("securitySchemes", w')]))
            <==> SameMember(v, v') && SameMember(w, w')
  {
    var ms, ns := [Member("operations", v), Member("securitySchemes", w)], [Member("operations", v'), Member("securitySchemes", w')];
    SameRecords(ms, ns);
    assert SameMember(ms[0].value, ns[0].value) <==> SameMember(v, v');
    assert SameMember(ms[1].value, ns[1].value) <==> SameMember(w, w');
  }
}
