/** Disambiguation and merging of relationships (backend/src/dependencies/mergeRelationships.ts). */
module MergeRelationships {
  import opened Sequences
  import opened Ordering
  import opened Relationships

  function LocationText(f: FieldRef): string {
    if f.location.Some? then f.location.value else ""
  }

  /** The consuming field a relationship supplies. */
  function ConsumerField(r: Relationship): string {
    Join([r.consumer.operationPath, r.consumer.operationMethod, r.consumer.field, LocationText(r.consumer)], "|")
  }

  function Rank(c: Confidence): int {
    match c case CONFIRMED => 0 case LIKELY => 1 case POSSIBLE => 2
  }

  function Bit(b: bool): int {
    if b then 1 else 0
  }

  function EvidenceSignals(r: Relationship): int {
    match r.evidence
    case None => 0
    case Some(e) => Bit(e.nameMatch) + Bit(e.typeMatch) + Bit(e.formatMatch) + Bit(e.resourceRelationship) + Bit(e.tagAlignment)
  }

  // ---- compareCandidates ----

  /** The sign of `a.localeCompare(b)` when `le` says whether it is at most zero. */
  function Locale(le: (string, string) -> bool, a: string, b: string): int {
    if !le(a, b) then 1 else if le(b, a) then 0 else -1
  }

  function CompareCandidates(a: Relationship, b: Relationship, le: (string, string) -> bool): int {
    if Rank(a.confidence) != Rank(b.confidence) then Rank(a.confidence) - Rank(b.confidence)
    else if EvidenceSignals(b) != EvidenceSignals(a) then EvidenceSignals(b) - EvidenceSignals(a)
    else if a.producer.operationPath != b.producer.operationPath then
      Locale(le, a.producer.operationPath, b.producer.operationPath)
    else if a.producer.operationMethod != b.producer.operationMethod then
      Locale(le, a.producer.operationMethod, b.producer.operationMethod)
    else Locale(le, a.producer.field, b.producer.field)
  }

  function Preferred(le: (string, string) -> bool): (Relationship, Relationship) -> bool {
    (a: Relationship, b: Relationship) => CompareCandidates(a, b, le) <= 0
  }

  ghost predicate LocaleOrder(le: (string, string) -> bool) {
    TotalPreorder(le) && Antisymmetric(le)
  }

  /** On the three levels themselves: `c` is at least as confident as `d`. */
  predicate NoLessConfident(c: Confidence, d: Confidence) {
    (d == CONFIRMED ==> c == CONFIRMED) && (d == LIKELY ==> c != POSSIBLE)
  }

  /** How many flags of the evidence are true. */
  ghost function TrueFlags(r: Relationship): nat {
    match r.evidence
    case None => 0
    case Some(e) => multiset{e.nameMatch, e.typeMatch, e.formatMatch, e.resourceRelationship, e.tagAlignment}[true]
  }

  lemma SignalsCount(r: Relationship)
    ensures EvidenceSignals(r) == TrueFlags(r)
  {
  }

  /** The producer of `a` comes first by path, then by method, then by field. */
  predicate ProducerFirst(a: FieldRef, b: FieldRef, le: (string, string) -> bool) {
    if a.operationPath != b.operationPath then le(a.operationPath, b.operationPath)
    else if a.operationMethod != b.operationMethod then le(a.operationMethod, b.operationMethod)
    else le(a.field, b.field)
  }

  /** More confident, then with more signals, then first by producer. */
  ghost predicate AtLeastAsGood(a: Relationship, b: Relationship, le: (string, string) -> bool) {
    && NoLessConfident(a.confidence, b.confidence)
    && (a.confidence == b.confidence ==>
          TrueFlags(a) >= TrueFlags(b) && (TrueFlags(a) == TrueFlags(b) ==> ProducerFirst(a.producer, b.producer, le)))
  }

  lemma PreferredMeans(a: Relationship, b: Relationship, le: (string, string) -> bool)
    requires LocaleOrder(le)
    ensures CompareCandidates(a, b, le) <= 0 <==> AtLeastAsGood(a, b, le)
  {
    SignalsCount(a);
    SignalsCount(b);
  }

  lemma PreferredTransitive(le: (string, string) -> bool, a: Relationship, b: Relationship, c: Relationship)
    requires LocaleOrder(le) && Preferred(le)(a, b) && Preferred(le)(b, c)
    ensures Preferred(le)(a, c)
  {
  }

  /** The tie-break is a total preorder, because distinct strings never compare equal. */
  lemma PreferredIsOrder(le: (string, string) -> bool)
    requires LocaleOrder(le)
    ensures TotalPreorder(Preferred(le))
  {
    forall a, b ensures Preferred(le)(a, b) || Preferred(le)(b, a) {}
    forall a, b, c | Preferred(le)(a, b) && Preferred(le)(b, c) ensures Preferred(le)(a, c) {
      PreferredTransitive(le, a, b, c);
    }
  }

  /** Candidates tie only when they name the same producer field with equal confidence and evidence. */
  lemma TieMeansSameProducer(le: (string, string) -> bool, a: Relationship, b: Relationship)
    requires LocaleOrder(le) && Preferred(le)(a, b) && Preferred(le)(b, a)
    ensures a.producer.operationPath == b.producer.operationPath
    ensures a.producer.operationMethod == b.producer.operationMethod && a.producer.field == b.producer.field
    ensures a.confidence == b.confidence && EvidenceSignals(a) == EvidenceSignals(b)
  {
  }

  // ---- resolveProducerDisambiguation ----

  /** The candidates for one consuming field, best first. */
  function Candidates(rels: seq<Relationship>, field: string, le: (string, string) -> bool): seq<Relationship> {
    SortBy(OfKey(rels, ConsumerField, field), Preferred(le))
  }

  /** All candidates, field by field in the order the fields are first seen. */
  function Ranked(rels: seq<Relationship>, le: (string, string) -> bool): seq<seq<Relationship>> {
    Map(FirstKeys(rels, ConsumerField), f => Candidates(rels, f, le))
  }

  /** The relationship kept for every consuming field. */
  function Resolved(rels: seq<Relationship>, le: (string, string) -> bool): seq<Relationship> {
    Heads(Ranked(rels, le))
  }

  function Excluded(rels: seq<Relationship>, le: (string, string) -> bool): seq<Relationship> {
    Tails(Ranked(rels, le))
  }

  /** One turn of the loop: a lone candidate is kept, otherwise the head of the sorted group. */
  function TakeBest(kept: seq<Relationship>, passedOver: seq<Relationship>, group: seq<Relationship>, le: (string, string) -> bool)
    : (seq<Relationship>, seq<Relationship>)
    requires group != []
  {
    if |group| == 1 then (kept + [group[0]], passedOver)
    else
      var sorted := SortBy(group, Preferred(le));
      (kept + [sorted[0]], passedOver + sorted[1..])
  }

  ghost predicate TakenUpTo(rels: seq<Relationship>, le: (string, string) -> bool, i: nat, kept: seq<Relationship>, passedOver: seq<Relationship>) {
    i <= |Ranked(rels, le)| && kept == Heads(Ranked(rels, le)[..i]) && passedOver == Tails(Ranked(rels, le)[..i])
  }

  lemma TakeBestPush(rels: seq<Relationship>, fields: seq<string>, groupOf: map<string, seq<Relationship>>, i: nat,
    le: (string, string) -> bool, kept: seq<Relationship>, passedOver: seq<Relationship>)
    requires Grouped(rels, ConsumerField, fields, groupOf) && i < |fields| && TakenUpTo(rels, le, i, kept, passedOver)
    ensures fields[i] in groupOf && groupOf[fields[i]] != []
    ensures var (kept', passedOver') := TakeBest(kept, passedOver, groupOf[fields[i]], le);
            TakenUpTo(rels, le, i + 1, kept', passedOver')
  {
    assert GroupAt(rels, ConsumerField, groupOf, fields[i]);
    var ranked, group := Ranked(rels, le), groupOf[fields[i]];
    assert ranked[i] == SortBy(group, Preferred(le));
    HeadsPush(ranked, i);
    if |group| == 1 { assert group[1..] == []; }
  }

  lemma AllTaken(rels: seq<Relationship>, le: (string, string) -> bool, kept: seq<Relationship>, passedOver: seq<Relationship>)
    requires TakenUpTo(rels, le, |FirstKeys(rels, ConsumerField)|, kept, passedOver)
    ensures kept == Resolved(rels, le) && passedOver == Excluded(rels, le)
  {
    assert Ranked(rels, le)[..|FirstKeys(rels, ConsumerField)|] == Ranked(rels, le);
  }

  /** `resolveProducerDisambiguation` */
  method ResolveProducerDisambiguation(rels: seq<Relationship>, le: (string, string) -> bool)
    returns (resolved: seq<Relationship>, excluded: seq<Relationship>)
    ensures resolved == Resolved(rels, le) && excluded == Excluded(rels, le)
  {
    var fields, groupOf := GroupBy(rels, ConsumerField);
    resolved, excluded := [], [];
    for i := 0 to |fields|
      invariant TakenUpTo(rels, le, i, resolved, excluded)
    {
      TakeBestPush(rels, fields, groupOf, i, le, resolved, excluded);
      var taken := TakeBest(resolved, excluded, groupOf[fields[i]], le);
      resolved, excluded := taken.0, taken.1;
    }
    AllTaken(rels, le, resolved, excluded);
  }

  ghost predicate HasCandidate(rels: seq<Relationship>, field: string) {
    exists r :: r in rels && ConsumerField(r) == field
  }

  lemma CandidatesHead(rels: seq<Relationship>, field: string, le: (string, string) -> bool)
    requires LocaleOrder(le) && HasCandidate(rels, field)
    ensures var c := Candidates(rels, field, le);
            && c != [] && c[0] in rels && ConsumerField(c[0]) == field
            && forall r :: r in rels && ConsumerField(r) == field ==> Preferred(le)(c[0], r)
  {
    PreferredIsOrder(le);
    var group := OfKey(rels, ConsumerField, field);
    SortBySorted(group, Preferred(le));
    SortByMembers(group, Preferred(le));
    var c := Candidates(rels, field, le);
    var w :| w in rels && ConsumerField(w) == field;
    assert w in c && c[0] in c;
    forall r | r in rels && ConsumerField(r) == field ensures Preferred(le)(c[0], r) {
      assert r in c;
      HeadIsLeast(c, r, Preferred(le));
    }
  }

  /** The head of a field's candidates is kept for that field. */
  lemma ResolvedAt(rels: seq<Relationship>, le: (string, string) -> bool)
    requires LocaleOrder(le)
    ensures var fields := FirstKeys(rels, ConsumerField);
            && |Resolved(rels, le)| == |fields|
            && forall i :: 0 <= i < |fields| ==>
                 HasCandidate(rels, fields[i]) && Candidates(rels, fields[i], le) != []
                 && Resolved(rels, le)[i] == Candidates(rels, fields[i], le)[0]
  {
    FirstKeysComplete(rels, ConsumerField);
    var fields := FirstKeys(rels, ConsumerField);
    forall i | 0 <= i < |fields| ensures HasCandidate(rels, fields[i]) && Ranked(rels, le)[i] != [] {
      assert fields[i] in fields;
      CandidatesHead(rels, fields[i], le);
    }
    HeadsAt(Ranked(rels, le));
  }

  /** One kept relationship: it supplies its field, and no candidate for that field is preferred to it. */
  lemma ResolvedIsBestAt(rels: seq<Relationship>, le: (string, string) -> bool, i: nat)
    requires LocaleOrder(le) && i < |Resolved(rels, le)|
    ensures |Resolved(rels, le)| == |FirstKeys(rels, ConsumerField)|
    ensures var r := Resolved(rels, le)[i];
            && r in rels && ConsumerField(r) == FirstKeys(rels, ConsumerField)[i]
            && forall s :: s in rels && ConsumerField(s) == ConsumerField(r) ==> CompareCandidates(r, s, le) <= 0
  {
    ResolvedAt(rels, le);
    var f := FirstKeys(rels, ConsumerField)[i];
    CandidatesHead(rels, f, le);
    var r := Resolved(rels, le)[i];
    forall s | s in rels && ConsumerField(s) == ConsumerField(r) ensures CompareCandidates(r, s, le) <= 0 {
      assert Preferred(le)(r, s);
    }
  }

  /** Exactly one relationship is kept for every consuming field that has a candidate. */
  lemma OneKeptPerField(rels: seq<Relationship>, le: (string, string) -> bool)
    requires LocaleOrder(le)
    ensures var keptFields := Map(Resolved(rels, le), ConsumerField);
            && Distinct(keptFields)
            && (forall r :: r in rels ==> ConsumerField(r) in keptFields)
            && (forall f :: f in keptFields ==> HasCandidate(rels, f))
  {
    FirstKeysComplete(rels, ConsumerField);
    ResolvedAt(rels, le);
    var fields := FirstKeys(rels, ConsumerField);
    forall i | 0 <= i < |fields| ensures ConsumerField(Resolved(rels, le)[i]) == fields[i] {
      ResolvedIsBestAt(rels, le, i);
    }
    assert Map(Resolved(rels, le), ConsumerField) == fields;
  }

  /** The kept relationship is a candidate, and every candidate for its field is less confident, has fewer signals or comes later. */
  lemma KeptIsBest(rels: seq<Relationship>, le: (string, string) -> bool, r: Relationship, s: Relationship)
    requires LocaleOrder(le) && r in Resolved(rels, le)
    requires s in rels && ConsumerField(s) == ConsumerField(r)
    ensures r in rels && CompareCandidates(r, s, le) <= 0 && AtLeastAsGood(r, s, le)
  {
    PreferredMeans(r, s, le);
    var i :| 0 <= i < |Resolved(rels, le)| && Resolved(rels, le)[i] == r;
    ResolvedIsBestAt(rels, le, i);
  }

  /** Nothing is lost and nothing is invented: kept and excluded partition the input. */
  lemma DisambiguationPartitions(rels: seq<Relationship>, le: (string, string) -> bool)
    ensures multiset(Resolved(rels, le)) + multiset(Excluded(rels, le)) == multiset(rels)
  {
    FirstKeysComplete(rels, ConsumerField);
    var fields := FirstKeys(rels, ConsumerField);
    HeadsAndTails(Ranked(rels, le));
    SortingGroupsKeepsElements(rels, fields, le);
    GroupsPartition(rels, ConsumerField, fields);
  }

  lemma {:induction false} SortingGroupsKeepsElements(rels: seq<Relationship>, fields: seq<string>, le: (string, string) -> bool)
    ensures multiset(Flatten(Map(fields, f => Candidates(rels, f, le)))) ==
            multiset(Flatten(Map(fields, f => OfKey(rels, ConsumerField, f))))
  {
    if fields != [] {
      SortingGroupsKeepsElements(rels, fields[1..], le);
      SortByPermutes(OfKey(rels, ConsumerField, fields[0]), Preferred(le));
    }
  }

  // ---- The choice and the order of the input ----

  /** What a kept relationship says about its consuming field. */
  datatype Choice = Choice(
    consumerField: string, producerPath: string, producerMethod: string, producerField: string,
    confidence: Confidence, signals: int)

  function ChoiceOf(r: Relationship): Choice {
    Choice(ConsumerField(r), r.producer.operationPath, r.producer.operationMethod, r.producer.field,
           r.confidence, EvidenceSignals(r))
  }

  /** A candidate no other candidate for its consuming field is preferred to. */
  ghost predicate IsBest(rels: seq<Relationship>, r: Relationship, le: (string, string) -> bool) {
    r in rels && forall s :: s in rels && ConsumerField(s) == ConsumerField(r) ==> CompareCandidates(r, s, le) <= 0
  }

  lemma BestOfRearranged(a: seq<Relationship>, b: seq<Relationship>, r: Relationship, le: (string, string) -> bool)
    requires multiset(a) == multiset(b) && IsBest(a, r, le)
    ensures IsBest(b, r, le)
  {
    assert r in multiset(a);
    forall s | s in b ensures s in a { assert s in multiset(b); }
  }

  /** The relationship kept for the field of a given candidate. */
  lemma KeptFor(rels: seq<Relationship>, r: Relationship, le: (string, string) -> bool) returns (kept: Relationship)
    requires LocaleOrder(le) && r in rels
    ensures kept in Resolved(rels, le) && IsBest(rels, kept, le) && ConsumerField(kept) == ConsumerField(r)
  {
    OneKeptPerField(rels, le);
    var fields := Map(Resolved(rels, le), ConsumerField);
    var i :| 0 <= i < |fields| && fields[i] == ConsumerField(r);
    ResolvedIsBestAt(rels, le, i);
    kept := Resolved(rels, le)[i];
  }

  lemma BestTie(rels: seq<Relationship>, r: Relationship, s: Relationship, le: (string, string) -> bool)
    requires LocaleOrder(le) && IsBest(rels, r, le) && IsBest(rels, s, le) && ConsumerField(r) == ConsumerField(s)
    ensures ChoiceOf(r) == ChoiceOf(s)
  {
    assert Preferred(le)(r, s) && Preferred(le)(s, r);
    TieMeansSameProducer(le, r, s);
  }

  lemma KeptIsBestOf(rels: seq<Relationship>, r: Relationship, le: (string, string) -> bool)
    requires LocaleOrder(le) && r in Resolved(rels, le)
    ensures IsBest(rels, r, le)
  {
    var i :| 0 <= i < |Resolved(rels, le)| && Resolved(rels, le)[i] == r;
    ResolvedIsBestAt(rels, le, i);
  }

  lemma ChoiceAlsoMade(a: seq<Relationship>, b: seq<Relationship>, le: (string, string) -> bool, c: Choice)
    requires LocaleOrder(le) && multiset(a) == multiset(b) && c in Map(Resolved(a, le), ChoiceOf)
    ensures c in Map(Resolved(b, le), ChoiceOf)
  {
    var i :| 0 <= i < |Resolved(a, le)| && ChoiceOf(Resolved(a, le)[i]) == c;
    var r := Resolved(a, le)[i];
    KeptIsBestOf(a, r, le);
    BestOfRearranged(a, b, r, le);
    var s := KeptFor(b, r, le);
    BestTie(b, r, s, le);
    var j :| 0 <= j < |Resolved(b, le)| && Resolved(b, le)[j] == s;
    assert Map(Resolved(b, le), ChoiceOf)[j] == c;
  }

  /** Which producer field supplies a consuming field, and with what confidence and evidence, never depends on the order of the input. */
  lemma ChoiceIgnoresInputOrder(a: seq<Relationship>, b: seq<Relationship>, le: (string, string) -> bool)
    requires LocaleOrder(le) && multiset(a) == multiset(b)
    ensures forall c :: c in Map(Resolved(a, le), ChoiceOf) <==> c in Map(Resolved(b, le), ChoiceOf)
  {
    forall c | c in Map(Resolved(a, le), ChoiceOf) ensures c in Map(Resolved(b, le), ChoiceOf) { ChoiceAlsoMade(a, b, le, c); }
    forall c | c in Map(Resolved(b, le), ChoiceOf) ensures c in Map(Resolved(a, le), ChoiceOf) { ChoiceAlsoMade(b, a, le, c); }
  }

  /** No two distinct candidates for one consuming field are both best. */
  ghost predicate UniqueBest(rels: seq<Relationship>, le: (string, string) -> bool) {
    forall r, s :: IsBest(rels, r, le) && IsBest(rels, s, le) && ConsumerField(r) == ConsumerField(s) ==> r == s
  }

  ghost predicate KeepsTheSame(a: seq<Relationship>, b: seq<Relationship>, le: (string, string) -> bool) {
    forall r :: r in Resolved(a, le) <==> r in Resolved(b, le)
  }

  lemma UniqueBestIsKept(a: seq<Relationship>, b: seq<Relationship>, le: (string, string) -> bool, r: Relationship)
    requires LocaleOrder(le) && multiset(a) == multiset(b) && UniqueBest(b, le) && r in Resolved(a, le)
    ensures r in Resolved(b, le)
  {
    KeptIsBestOf(a, r, le);
    BestOfRearranged(a, b, r, le);
    var s := KeptFor(b, r, le);
  }

  /** A best candidate that comes first is the one that is kept, because the sort is stable. */
  lemma FirstBestIsKept(r: Relationship, rest: seq<Relationship>, le: (string, string) -> bool)
    requires LocaleOrder(le) && IsBest([r] + rest, r, le)
    ensures r in Resolved([r] + rest, le)
  {
    var rels, field := [r] + rest, ConsumerField(r);
    var group := OfKey(rest, ConsumerField, field);
    assert rels[1..] == rest;
    assert OfKey(rels, ConsumerField, field) == [r] + group;
    assert ([r] + group)[1..] == group;
    SortByMembers(group, Preferred(le));
    forall s | s in SortBy(group, Preferred(le)) ensures Preferred(le)(r, s) { assert HasKey(ConsumerField, field)(s); }
    assert Candidates(rels, field, le)[0] == r;
    FirstKeysComplete(rels, ConsumerField);
    ResolvedAt(rels, le);
    var i :| 0 <= i < |FirstKeys(rels, ConsumerField)| && FirstKeys(rels, ConsumerField)[i] == field;
    assert Resolved(rels, le)[i] == r;
  }

  lemma KeptWhenFirst(a: seq<Relationship>, le: (string, string) -> bool, r: Relationship)
    requires LocaleOrder(le) && IsBest(a, r, le)
    requires forall b :: multiset(b) == multiset(a) ==> KeepsTheSame(a, b, le)
    ensures r in Resolved(a, le)
  {
    var u, v := TakeOut(a, r);
    var b := [r] + (u + v);
    assert multiset(b) == multiset(a);
    BestOfRearranged(a, b, r, le);
    FirstBestIsKept(r, u + v, le);
    assert KeepsTheSame(a, b, le);
  }

  /** The kept relationships themselves are the same for every arrangement of the input exactly when no two candidates are both best. */
  lemma KeptIgnoreInputOrderIff(a: seq<Relationship>, le: (string, string) -> bool)
    requires LocaleOrder(le)
    ensures (forall b :: multiset(b) == multiset(a) ==> KeepsTheSame(a, b, le)) <==> UniqueBest(a, le)
  {
    if UniqueBest(a, le) {
      forall b | multiset(b) == multiset(a) ensures KeepsTheSame(a, b, le) {
        forall r, s | IsBest(b, r, le) && IsBest(b, s, le) && ConsumerField(r) == ConsumerField(s) ensures r == s {
          BestOfRearranged(b, a, r, le);
          BestOfRearranged(b, a, s, le);
        }
        forall r | r in Resolved(a, le) ensures r in Resolved(b, le) { UniqueBestIsKept(a, b, le, r); }
        forall r | r in Resolved(b, le) ensures r in Resolved(a, le) { UniqueBestIsKept(b, a, le, r); }
      }
    }
    if forall b :: multiset(b) == multiset(a) ==> KeepsTheSame(a, b, le) {
      forall r, s | IsBest(a, r, le) && IsBest(a, s, le) && ConsumerField(r) == ConsumerField(s) ensures r == s {
        KeptWhenFirst(a, le, r);
        KeptWhenFirst(a, le, s);
        OnlyOneKept(a, le, r, s);
      }
    }
  }

  lemma KeptFieldsDiffer(rels: seq<Relationship>, le: (string, string) -> bool)
    requires LocaleOrder(le)
    ensures Distinct(Map(Resolved(rels, le), ConsumerField))
  {
    OneKeptPerField(rels, le);
  }

  lemma OnlyOneKept(rels: seq<Relationship>, le: (string, string) -> bool, r: Relationship, s: Relationship)
    requires LocaleOrder(le) && r in Resolved(rels, le) && s in Resolved(rels, le) && ConsumerField(r) == ConsumerField(s)
    ensures r == s
  {
    KeptFieldsDiffer(rels, le);
    var resolved := Resolved(rels, le);
    var fields := Map(resolved, ConsumerField);
    var i :| 0 <= i < |resolved| && resolved[i] == r;
    var j :| 0 <= j < |resolved| && resolved[j] == s;
    assert fields[i] == fields[j];
  }

  // ---- Merging the sources ----

  function HintConfidence(h: Hint): Confidence {
    match h.origin
    case FromDeclaration => if h.verified then CONFIRMED else LIKELY
    case FromCapture => if (if h.matchCount.Some? then h.matchCount.value else 1) >= 2 then LIKELY else POSSIBLE
  }

  /** `relationshipId` is a hash of both ends; it enters as `idOf`. */
  function HintToRelationship(h: Hint, idOf: (FieldRef, FieldRef) -> string): Relationship {
    var producer := h.producer.(location := None);
    Relationship(idOf(producer, h.consumer), producer, h.consumer, HintConfidence(h),
                 if h.origin.FromDeclaration? then Declared else Observed, None, None, Some(h))
  }

  function FieldPairKey(r: Relationship): string {
    Join([r.producer.operationPath, r.producer.operationMethod, r.producer.field,
          r.consumer.operationPath, r.consumer.operationMethod, r.consumer.field, LocationText(r.consumer)], "|")
  }

  function HintKey(h: Hint, idOf: (FieldRef, FieldRef) -> string): string {
    FieldPairKey(HintToRelationship(h, idOf))
  }

  /** The position `indexByKey` holds for a key: the last one that carries it, or the length when none does. */
  function IndexOf(keys: seq<string>, key: string): (i: nat)
    ensures i < |keys| ==> keys[i] == key
    ensures i <= |keys|
    ensures forall j :: i < j < |keys| ==> keys[j] != key
    ensures i == |keys| ==> key !in keys
  {
    if keys == [] then 0
    else if keys[|keys| - 1] == key then |keys| - 1
    else
      var i := IndexOf(keys[..|keys| - 1], key);
      assert keys == keys[..|keys| - 1] + [keys[|keys| - 1]];
      if i == |keys| - 1 then |keys| else i
  }

  function PairKeys(rels: seq<Relationship>): seq<string> {
    Map(rels, FieldPairKey)
  }

  /** The relationship stays deterministic, keeps the better confidence and carries the hint. */
  function Upgrade(existing: Relationship, fromHint: Relationship, h: Hint): Relationship {
    existing.(
      confidence := if Rank(fromHint.confidence) < Rank(existing.confidence) then fromHint.confidence else existing.confidence,
      inputEvidence := Some(h))
  }

  function AddHint(merged: seq<Relationship>, h: Hint, idOf: (FieldRef, FieldRef) -> string): seq<Relationship> {
    var fromHint := HintToRelationship(h, idOf);
    var i := IndexOf(PairKeys(merged), FieldPairKey(fromHint));
    if i == |merged| then merged + [fromHint]
    else merged[i := Upgrade(merged[i], fromHint, h)]
  }

  function WithHints(deterministic: seq<Relationship>, hints: seq<Hint>, idOf: (FieldRef, FieldRef) -> string): seq<Relationship> {
    if hints == [] then deterministic
    else AddHint(WithHints(deterministic, hints[..|hints| - 1], idOf), hints[|hints| - 1], idOf)
  }

  /** AI output corroborates an existing pair without changing its classification, or stands on its own. */
  function AddAI(merged: seq<Relationship>, ai: Relationship): seq<Relationship> {
    var i := IndexOf(PairKeys(merged), FieldPairKey(ai));
    if i == |merged| then merged + [ai]
    else merged[i := merged[i].(source := DeterministicAndAI, ai := ai.ai)]
  }

  function WithAI(deterministic: seq<Relationship>, ai: seq<Relationship>): seq<Relationship> {
    if ai == [] then deterministic
    else AddAI(WithAI(deterministic, ai[..|ai| - 1]), ai[|ai| - 1])
  }

  /** `indexByKey` says where each key is. */
  ghost predicate IndexesKeys(indexByKey: map<string, int>, keys: seq<string>) {
    forall k :: (k in indexByKey <==> k in keys) && (k in indexByKey ==> indexByKey[k] == IndexOf(keys, k))
  }

  lemma IndexPush(indexByKey: map<string, int>, keys: seq<string>, key: string)
    requires IndexesKeys(indexByKey, keys)
    ensures IndexesKeys(indexByKey[key := |keys|], keys + [key])
  {
    var keys' := keys + [key];
    assert keys'[..|keys'| - 1] == keys;
    forall k | k != key ensures IndexOf(keys', k) == if k in keys then IndexOf(keys, k) else |keys'| {}
  }

  /** `new Map(merged.map((relationship, index) => [key, index]))`: a repeated key keeps its last index. */
  method IndexAll(rels: seq<Relationship>) returns (indexByKey: map<string, int>)
    ensures IndexesKeys(indexByKey, PairKeys(rels))
  {
    ghost var keys := PairKeys(rels);
    indexByKey := map[];
    for i := 0 to |rels|
      invariant IndexesKeys(indexByKey, keys[..i])
    {
      var key := FieldPairKey(rels[i]);
      IndexPush(indexByKey, keys[..i], key);
      assert keys[i] == key && keys[..i + 1] == keys[..i] + [key];
      indexByKey := indexByKey[key := i];
    }
    assert keys[..|rels|] == keys;
  }

  lemma KeysAfter(merged: seq<Relationship>, r: Relationship)
    ensures PairKeys(merged + [r]) == PairKeys(merged) + [FieldPairKey(r)]
  {
  }

  /** What the map lookup finds, and what it must hold after a push. */
  lemma LookUp(indexByKey: map<string, int>, merged: seq<Relationship>, r: Relationship)
    requires IndexesKeys(indexByKey, PairKeys(merged))
    ensures var key := FieldPairKey(r);
            var i := IndexOf(PairKeys(merged), key);
            if key in indexByKey then i < |merged| && indexByKey[key] == i && FieldPairKey(merged[i]) == key
            else i == |merged| && IndexesKeys(indexByKey[key := |merged|], PairKeys(merged + [r]))
  {
    KeysAfter(merged, r);
    IndexPush(indexByKey, PairKeys(merged), FieldPairKey(r));
  }

  lemma SameKeys(merged: seq<Relationship>, i: nat, x: Relationship)
    requires i < |merged| && FieldPairKey(x) == FieldPairKey(merged[i])
    ensures PairKeys(merged[i := x]) == PairKeys(merged)
  {
  }

  /** `mergeInputHints` */
  method MergeInputHints(deterministic: seq<Relationship>, hints: seq<Hint>, idOf: (FieldRef, FieldRef) -> string)
    returns (merged: seq<Relationship>)
    ensures merged == WithHints(deterministic, hints, idOf)
  {
    if hints == [] { return deterministic; }
    merged := deterministic;
    var indexByKey := IndexAll(merged);
    for n := 0 to |hints|
      invariant merged == WithHints(deterministic, hints[..n], idOf)
      invariant IndexesKeys(indexByKey, PairKeys(merged))
    {
      var fromHint := HintToRelationship(hints[n], idOf);
      var key := FieldPairKey(fromHint);
      assert hints[..n + 1][..n] == hints[..n];
      LookUp(indexByKey, merged, fromHint);
      if key !in indexByKey {
        indexByKey := indexByKey[key := |merged|];
        merged := merged + [fromHint];
      } else {
        var index := indexByKey[key];
        SameKeys(merged, index, Upgrade(merged[index], fromHint, hints[n]));
        merged := merged[index := Upgrade(merged[index], fromHint, hints[n])];
      }
    }
    assert hints[..|hints|] == hints;
  }

  /** `mergeDeterministicAndAI` */
  method MergeDeterministicAndAI(deterministic: seq<Relationship>, ai: seq<Relationship>) returns (merged: seq<Relationship>)
    ensures merged == WithAI(deterministic, ai)
  {
    merged := deterministic;
    var indexByKey := IndexAll(merged);
    for n := 0 to |ai|
      invariant merged == WithAI(deterministic, ai[..n])
      invariant IndexesKeys(indexByKey, PairKeys(merged))
    {
      var key := FieldPairKey(ai[n]);
      assert ai[..n + 1][..n] == ai[..n];
      LookUp(indexByKey, merged, ai[n]);
      if key !in indexByKey {
        indexByKey := indexByKey[key := |merged|];
        merged := merged + [ai[n]];
      } else {
        var index := indexByKey[key];
        SameKeys(merged, index, merged[index].(source := DeterministicAndAI, ai := ai[n].ai));
        merged := merged[index := merged[index].(source := DeterministicAndAI, ai := ai[n].ai)];
      }
    }
    assert ai[..|ai|] == ai;
  }

  // ---- What merging promises ----

  /** The same finding: same id, same ends, same deterministic evidence. */
  predicate SameFinding(r: Relationship, s: Relationship) {
    r.id == s.id && r.producer == s.producer && r.consumer == s.consumer && r.evidence == s.evidence
  }

  /** `later` still holds everything of `earlier` in place, with no confidence lost. */
  ghost predicate Extends(later: seq<Relationship>, earlier: seq<Relationship>) {
    |later| >= |earlier| && forall i :: 0 <= i < |earlier| ==>
      SameFinding(later[i], earlier[i]) && NoLessConfident(later[i].confidence, earlier[i].confidence)
  }

  lemma AddHintExtends(merged: seq<Relationship>, h: Hint, idOf: (FieldRef, FieldRef) -> string)
    ensures Extends(AddHint(merged, h, idOf), merged)
  {
    var fromHint := HintToRelationship(h, idOf);
    var i := IndexOf(PairKeys(merged), FieldPairKey(fromHint));
    if i < |merged| { UpgradeKeeps(merged[i], fromHint, h); }
  }

  lemma UpgradeKeeps(existing: Relationship, fromHint: Relationship, h: Hint)
    ensures var r := Upgrade(existing, fromHint, h);
            SameFinding(r, existing) && NoLessConfident(r.confidence, existing.confidence)
  {
  }

  lemma ExtendsTransitive(a: seq<Relationship>, b: seq<Relationship>, c: seq<Relationship>)
    requires Extends(a, b) && Extends(b, c)
    ensures Extends(a, c)
  {
  }

  lemma {:induction false} HintsExtend(deterministic: seq<Relationship>, hints: seq<Hint>, idOf: (FieldRef, FieldRef) -> string)
    ensures Extends(WithHints(deterministic, hints, idOf), deterministic)
  {
    if hints != [] {
      var before := WithHints(deterministic, hints[..|hints| - 1], idOf);
      HintsExtend(deterministic, hints[..|hints| - 1], idOf);
      AddHintExtends(before, hints[|hints| - 1], idOf);
      ExtendsTransitive(WithHints(deterministic, hints, idOf), before, deterministic);
    }
  }

  /** AI never moves a confidence: what was there before keeps exactly its classification. */
  lemma {:induction false} AIKeepsClassification(before: seq<Relationship>, ai: seq<Relationship>)
    ensures Extends(WithAI(before, ai), before)
    ensures forall i :: 0 <= i < |before| ==> WithAI(before, ai)[i].confidence == before[i].confidence
  {
    if ai != [] {
      AIKeepsClassification(before, ai[..|ai| - 1]);
      AddAIKeeps(WithAI(before, ai[..|ai| - 1]), ai[|ai| - 1]);
    }
  }

  lemma AddAIKeeps(merged: seq<Relationship>, r: Relationship)
    ensures |AddAI(merged, r)| >= |merged|
    ensures forall i :: 0 <= i < |merged| ==> SameFinding(AddAI(merged, r)[i], merged[i]) && AddAI(merged, r)[i].confidence == merged[i].confidence
  {
  }

  /** Every deterministic relationship keeps its place and never loses confidence through both merges. */
  lemma DeterministicKeepsItsPlace(
    deterministic: seq<Relationship>, hints: seq<Hint>, ai: seq<Relationship>, idOf: (FieldRef, FieldRef) -> string)
    ensures Extends(WithAI(WithHints(deterministic, hints, idOf), ai), deterministic)
  {
    HintsExtend(deterministic, hints, idOf);
    AIKeepsClassification(WithHints(deterministic, hints, idOf), ai);
  }

  const NO_RANK := 3

  /** The rank of the relationship the index holds for a field pair, or `NO_RANK` when there is none. */
  function RankOfPair(rels: seq<Relationship>, key: string): int {
    var i := IndexOf(PairKeys(rels), key);
    if i == |rels| then NO_RANK else Rank(rels[i].confidence)
  }

  function BestHintRank(hints: seq<Hint>, key: string, idOf: (FieldRef, FieldRef) -> string): int {
    if hints == [] then NO_RANK
    else
      var rest := BestHintRank(hints[..|hints| - 1], key, idOf);
      var h := hints[|hints| - 1];
      if HintKey(h, idOf) == key && Rank(HintConfidence(h)) < rest then Rank(HintConfidence(h)) else rest
  }

  lemma PushedRank(merged: seq<Relationship>, r: Relationship, key: string)
    ensures RankOfPair(merged + [r], key) == if key == FieldPairKey(r) then Rank(r.confidence) else RankOfPair(merged, key)
  {
    KeysAfter(merged, r);
    var keys' := PairKeys(merged) + [FieldPairKey(r)];
    assert keys'[..|keys'| - 1] == PairKeys(merged);
  }

  lemma AddHintRank(merged: seq<Relationship>, h: Hint, idOf: (FieldRef, FieldRef) -> string, key: string)
    ensures var mine := Rank(HintConfidence(h));
            RankOfPair(AddHint(merged, h, idOf), key) ==
            if HintKey(h, idOf) == key && mine < RankOfPair(merged, key) then mine else RankOfPair(merged, key)
  {
    var fromHint := HintToRelationship(h, idOf);
    var i := IndexOf(PairKeys(merged), FieldPairKey(fromHint));
    if i == |merged| {
      PushedRank(merged, fromHint, key);
    } else {
      assert FieldPairKey(merged[i]) == PairKeys(merged)[i];
      SameKeys(merged, i, Upgrade(merged[i], fromHint, h));
    }
  }

  /** By rank, every pair carries the better of its own and all hinted confidences. */
  lemma {:induction false} HintsGiveBestRank(deterministic: seq<Relationship>, hints: seq<Hint>, idOf: (FieldRef, FieldRef) -> string, key: string)
    ensures RankOfPair(WithHints(deterministic, hints, idOf), key) ==
            var own, hinted := RankOfPair(deterministic, key), BestHintRank(hints, key, idOf);
            if hinted < own then hinted else own
  {
    if hints != [] {
      HintsGiveBestRank(deterministic, hints[..|hints| - 1], idOf, key);
      AddHintRank(WithHints(deterministic, hints[..|hints| - 1], idOf), hints[|hints| - 1], idOf, key);
    }
  }

  /** The entry the index holds for a field pair has this confidence. */
  ghost predicate PairHas(rels: seq<Relationship>, key: string, c: Confidence) {
    var i := IndexOf(PairKeys(rels), key);
    i < |rels| && rels[i].confidence == c
  }

  /** What a hint is worth: confirmed when declared and verified, possible when captured once. */
  predicate HintIsWorth(h: Hint, c: Confidence) {
    match c
    case CONFIRMED => h.origin.FromDeclaration? && h.verified
    case LIKELY => (h.origin.FromDeclaration? && !h.verified) || (h.origin.FromCapture? && h.matchCount.Some? && h.matchCount.value >= 2)
    case POSSIBLE => h.origin.FromCapture? && (h.matchCount.None? || h.matchCount.value < 2)
  }

  /** The relationship the deterministic analysis found, or some hint, has this confidence for the field pair. */
  ghost predicate Offered(deterministic: seq<Relationship>, hints: seq<Hint>, idOf: (FieldRef, FieldRef) -> string, key: string, c: Confidence) {
    PairHas(deterministic, key, c) || HintOffered(hints, idOf, key, c)
  }

  ghost predicate HintOffered(hints: seq<Hint>, idOf: (FieldRef, FieldRef) -> string, key: string, c: Confidence) {
    exists h :: h in hints && HintKey(h, idOf) == key && HintIsWorth(h, c)
  }

  lemma WorthIsConfidence(h: Hint, c: Confidence)
    ensures HintIsWorth(h, c) <==> HintConfidence(h) == c
  {
  }

  /** `best` is the rank of the best confidence some hint offers. */
  ghost predicate RanksBest(hints: seq<Hint>, idOf: (FieldRef, FieldRef) -> string, key: string, best: int) {
    && (best == 0 <==> HintOffered(hints, idOf, key, CONFIRMED))
    && (best == 1 <==> !HintOffered(hints, idOf, key, CONFIRMED) && HintOffered(hints, idOf, key, LIKELY))
    && (best == 2 <==> !HintOffered(hints, idOf, key, CONFIRMED) && !HintOffered(hints, idOf, key, LIKELY)
                       && HintOffered(hints, idOf, key, POSSIBLE))
    && 0 <= best <= NO_RANK
  }

  lemma {:induction false} BestHintIsOffered(hints: seq<Hint>, idOf: (FieldRef, FieldRef) -> string, key: string)
    ensures RanksBest(hints, idOf, key, BestHintRank(hints, key, idOf))
  {
    if hints != [] {
      var init, h := hints[..|hints| - 1], hints[|hints| - 1];
      BestHintIsOffered(init, idOf, key);
      assert hints == init + [h];
      RanksBestPush(init, h, idOf, key, BestHintRank(init, key, idOf));
    }
  }

  lemma RanksBestPush(init: seq<Hint>, h: Hint, idOf: (FieldRef, FieldRef) -> string, key: string, best: int)
    requires RanksBest(init, idOf, key, best)
    ensures RanksBest(init + [h], idOf, key,
                      if HintKey(h, idOf) == key && Rank(HintConfidence(h)) < best then Rank(HintConfidence(h)) else best)
  {
    OfferedPush(init, h, idOf, key, CONFIRMED);
    OfferedPush(init, h, idOf, key, LIKELY);
    OfferedPush(init, h, idOf, key, POSSIBLE);
  }

  lemma OfferedPush(hints: seq<Hint>, h: Hint, idOf: (FieldRef, FieldRef) -> string, key: string, c: Confidence)
    ensures HintOffered(hints + [h], idOf, key, c) <==>
            HintOffered(hints, idOf, key, c) || (HintKey(h, idOf) == key && HintConfidence(h) == c)
  {
    WorthIsConfidence(h, c);
    assert forall g :: g in hints + [h] <==> g in hints || g == h;
  }

  /** For every field pair the result carries the best confidence that the deterministic analysis or any hint offers for it. */
  lemma HintsGiveBest(deterministic: seq<Relationship>, hints: seq<Hint>, idOf: (FieldRef, FieldRef) -> string, key: string)
    ensures var merged := WithHints(deterministic, hints, idOf);
            && (PairHas(merged, key, CONFIRMED) <==> Offered(deterministic, hints, idOf, key, CONFIRMED))
            && (PairHas(merged, key, LIKELY) <==>
                  !Offered(deterministic, hints, idOf, key, CONFIRMED) && Offered(deterministic, hints, idOf, key, LIKELY))
            && (PairHas(merged, key, POSSIBLE) <==>
                  !Offered(deterministic, hints, idOf, key, CONFIRMED) && !Offered(deterministic, hints, idOf, key, LIKELY)
                  && Offered(deterministic, hints, idOf, key, POSSIBLE))
  {
    HintsGiveBestRank(deterministic, hints, idOf, key);
    BestHintIsOffered(hints, idOf, key);
    PairRank(WithHints(deterministic, hints, idOf), key);
    PairRank(deterministic, key);
  }

  lemma PairRank(rels: seq<Relationship>, key: string)
    ensures var rank := RankOfPair(rels, key);
            && (PairHas(rels, key, CONFIRMED) <==> rank == 0) && (PairHas(rels, key, LIKELY) <==> rank == 1)
            && (PairHas(rels, key, POSSIBLE) <==> rank == 2) && 0 <= rank <= NO_RANK
  {
  }

  datatype Candidate = Candidate(producer: FieldRef, consumer: FieldRef, rationale: string, confidence: real)

  const AI_ONLY_LIKELY_THRESHOLD := 0.85

  function ClassifyAIOnly(aiConfidence: real): Confidence {
    if aiConfidence >= AI_ONLY_LIKELY_THRESHOLD then LIKELY else POSSIBLE
  }

  function CandidateToAIRelationship(c: Candidate, model: string, provider: string, idOf: (FieldRef, FieldRef) -> string): Relationship {
    Relationship(idOf(c.producer, c.consumer), c.producer, c.consumer, ClassifyAIOnly(c.confidence), AI, None,
                 Some(Corroboration(model, provider, c.confidence, c.rationale)), None)
  }

  /** No part of a field's identity holds the separator of the keys. */
  predicate PlainField(f: FieldRef) {
    '|' !in f.operationPath && '|' !in f.operationMethod && '|' !in f.field && '|' !in LocationText(f)
  }

  /** In the same place; no place given and an empty one are the same. */
  ghost predicate SamePlace(f: FieldRef, g: FieldRef) {
    f.location == g.location || (f.location in {None, Some("")} && g.location in {None, Some("")})
  }

  /** Where the separator is not part of a name, relationships compete exactly when they supply the same field at the same place. */
  lemma FieldKeyIdentifies(r: Relationship, s: Relationship)
    requires PlainField(r.consumer) && PlainField(s.consumer)
    ensures ConsumerField(r) == ConsumerField(s) <==>
            && r.consumer.operationPath == s.consumer.operationPath && r.consumer.operationMethod == s.consumer.operationMethod
            && r.consumer.field == s.consumer.field && SamePlace(r.consumer, s.consumer)
  {
    var a := [r.consumer.operationPath, r.consumer.operationMethod, r.consumer.field, LocationText(r.consumer)];
    var b := [s.consumer.operationPath, s.consumer.operationMethod, s.consumer.field, LocationText(s.consumer)];
    assert [a[0], a[1], a[2], a[3]] == a && [b[0], b[1], b[2], b[3]] == b;
    if ConsumerField(r) == ConsumerField(s) { JoinIdentifies(a, b, '|'); }
  }

  /** And they merge exactly when they join the same producer field to the same consuming field. */
  lemma PairKeyIdentifies(r: Relationship, s: Relationship)
    requires PlainField(r.consumer) && PlainField(s.consumer) && PlainField(r.producer) && PlainField(s.producer)
    ensures FieldPairKey(r) == FieldPairKey(s) <==>
            && r.producer.operationPath == s.producer.operationPath && r.producer.operationMethod == s.producer.operationMethod
            && r.producer.field == s.producer.field
            && r.consumer.operationPath == s.consumer.operationPath && r.consumer.operationMethod == s.consumer.operationMethod
            && r.consumer.field == s.consumer.field && SamePlace(r.consumer, s.consumer)
  {
    var a := [r.producer.operationPath, r.producer.operationMethod, r.producer.field,
              r.consumer.operationPath, r.consumer.operationMethod, r.consumer.field, LocationText(r.consumer)];
    var b := [s.producer.operationPath, s.producer.operationMethod, s.producer.field,
              s.consumer.operationPath, s.consumer.operationMethod, s.consumer.field, LocationText(s.consumer)];
    if FieldPairKey(r) == FieldPairKey(s) {
      JoinIdentifies(a, b, '|');
      assert a[0] == b[0] && a[1] == b[1] && a[2] == b[2] && a[3] == b[3] && a[4] == b[4] && a[5] == b[5] && a[6] == b[6];
    }
  }

  // ---- What becomes of a field pair ----

  /** The entry the index holds for a field pair. */
  function EntryOf(rels: seq<Relationship>, key: string): Option<Relationship> {
    var i := IndexOf(PairKeys(rels), key);
    if i < |rels| then Some(rels[i]) else None
  }

  lemma PushedEntry(merged: seq<Relationship>, r: Relationship, key: string)
    requires FieldPairKey(r) !in PairKeys(merged)
    ensures EntryOf(merged + [r], key) == if key == FieldPairKey(r) then Some(r) else EntryOf(merged, key)
  {
    KeysAfter(merged, r);
    var keys' := PairKeys(merged) + [FieldPairKey(r)];
    assert keys'[..|keys'| - 1] == PairKeys(merged);
  }

  lemma ReplacedEntry(merged: seq<Relationship>, x: Relationship, key: string)
    requires FieldPairKey(x) in PairKeys(merged)
    ensures var i := IndexOf(PairKeys(merged), FieldPairKey(x));
            i < |merged| && EntryOf(merged[i := x], key) == if key == FieldPairKey(x) then Some(x) else EntryOf(merged, key)
  {
    var i := IndexOf(PairKeys(merged), FieldPairKey(x));
    assert FieldPairKey(merged[i]) == PairKeys(merged)[i];
    SameKeys(merged, i, x);
  }

  lemma AddAIEntry(merged: seq<Relationship>, x: Relationship, key: string)
    ensures EntryOf(AddAI(merged, x), key) ==
            if key != FieldPairKey(x) then EntryOf(merged, key)
            else if EntryOf(merged, key).None? then Some(x)
            else Some(EntryOf(merged, key).value.(source := DeterministicAndAI, ai := x.ai))
  {
    var i := IndexOf(PairKeys(merged), FieldPairKey(x));
    if i == |merged| {
      PushedEntry(merged, x, key);
    } else {
      assert FieldPairKey(merged[i]) == PairKeys(merged)[i];
      ReplacedEntry(merged, merged[i].(source := DeterministicAndAI, ai := x.ai), key);
    }
  }

  /** What AI output about one pair makes of the entry there was: corroboration of it, or an entry of its own. */
  function WithCorroboration(own: Option<Relationship>, about: seq<Relationship>): Option<Relationship> {
    if about == [] then own
    else if own.Some? then Some(own.value.(source := DeterministicAndAI, ai := about[|about| - 1].ai))
    else if |about| == 1 then Some(about[0])
    else Some(about[0].(source := DeterministicAndAI, ai := about[|about| - 1].ai))
  }

  lemma CorroborationPush(own: Option<Relationship>, about: seq<Relationship>, x: Relationship)
    ensures WithCorroboration(own, about + [x]) ==
            var before := WithCorroboration(own, about);
            if before.None? then Some(x) else Some(before.value.(source := DeterministicAndAI, ai := x.ai))
  {
  }

  /**
   * A pair that only AI reports is kept as AI reported it; a pair that was there already keeps everything and carries
   * the last corroboration; every other pair is as before.
   */
  lemma {:induction false} AIEntryExact(before: seq<Relationship>, ai: seq<Relationship>, key: string)
    ensures EntryOf(WithAI(before, ai), key) == WithCorroboration(EntryOf(before, key), OfKey(ai, FieldPairKey, key))
  {
    if ai != [] {
      var n := |ai| - 1;
      var about := OfKey(ai[..n], FieldPairKey, key);
      AIEntryExact(before, ai[..n], key);
      AIEntryStep(WithAI(before, ai[..n]), EntryOf(before, key), about, ai[n], key);
      AboutPush(ai, key);
    }
  }

  lemma AboutPush(ai: seq<Relationship>, key: string)
    requires ai != []
    ensures var n := |ai| - 1; var about := OfKey(ai[..n], FieldPairKey, key);
            OfKey(ai, FieldPairKey, key) == if FieldPairKey(ai[n]) == key then about + [ai[n]] else about
  {
    OfKeyPush(ai, |ai| - 1, FieldPairKey, key);
    assert ai[..|ai|] == ai;
  }

  lemma AIEntryStep(merged: seq<Relationship>, own: Option<Relationship>, about: seq<Relationship>, r: Relationship, key: string)
    requires EntryOf(merged, key) == WithCorroboration(own, about)
    ensures EntryOf(AddAI(merged, r), key) == WithCorroboration(own, if FieldPairKey(r) == key then about + [r] else about)
  {
    AddAIEntry(merged, r, key);
    if FieldPairKey(r) == key { CorroborationPush(own, about, r); }
  }

  function KeyedBy(idOf: (FieldRef, FieldRef) -> string): Hint -> string {
    (h: Hint) => HintKey(h, idOf)
  }

  lemma AddHintEntryIs(merged: seq<Relationship>, h: Hint, idOf: (FieldRef, FieldRef) -> string, key: string)
    ensures EntryOf(AddHint(merged, h, idOf), key) ==
            if key != HintKey(h, idOf) then EntryOf(merged, key)
            else if EntryOf(merged, key).None? then Some(HintToRelationship(h, idOf))
            else Some(Upgrade(EntryOf(merged, key).value, HintToRelationship(h, idOf), h))
  {
    var fromHint := HintToRelationship(h, idOf);
    var i := IndexOf(PairKeys(merged), HintKey(h, idOf));
    if i == |merged| {
      PushedEntry(merged, fromHint, key);
    } else {
      assert FieldPairKey(merged[i]) == PairKeys(merged)[i];
      ReplacedEntry(merged, Upgrade(merged[i], fromHint, h), key);
    }
  }

  /** Apart from its confidence, the entry is the one there was, or the first hint's, carrying the last hint. */
  ghost predicate CarriesHints(entry: Option<Relationship>, own: Option<Relationship>, hints: seq<Hint>, idOf: (FieldRef, FieldRef) -> string) {
    if hints == [] then entry == own
    else
      && entry.Some?
      && var e := entry.value;
         e.inputEvidence == Some(hints[|hints| - 1])
         && if own.Some? then e.(confidence := own.value.confidence, inputEvidence := own.value.inputEvidence) == own.value
            else
              var h := hints[0];
              && e.id == idOf(h.producer.(location := None), h.consumer)
              && e.producer == h.producer.(location := None) && e.consumer == h.consumer
              && e.source == (if h.origin.FromDeclaration? then Declared else Observed)
              && e.evidence == None && e.ai == None
  }

  lemma CarriesPush(entry: Option<Relationship>, own: Option<Relationship>, about: seq<Hint>, h: Hint, idOf: (FieldRef, FieldRef) -> string)
    requires CarriesHints(entry, own, about, idOf)
    ensures var next := if entry.None? then HintToRelationship(h, idOf) else Upgrade(entry.value, HintToRelationship(h, idOf), h);
            CarriesHints(Some(next), own, about + [h], idOf)
  {
  }

  lemma HintStep(merged: seq<Relationship>, own: Option<Relationship>, about: seq<Hint>, h: Hint, idOf: (FieldRef, FieldRef) -> string, key: string)
    requires CarriesHints(EntryOf(merged, key), own, about, idOf)
    ensures CarriesHints(EntryOf(AddHint(merged, h, idOf), key), own, if HintKey(h, idOf) == key then about + [h] else about, idOf)
  {
    AddHintEntryIs(merged, h, idOf, key);
    if HintKey(h, idOf) == key { CarriesPush(EntryOf(merged, key), own, about, h, idOf); }
  }

  lemma HintsOfPair(hints: seq<Hint>, idOf: (FieldRef, FieldRef) -> string, key: string)
    requires hints != []
    ensures var init, h := hints[..|hints| - 1], hints[|hints| - 1];
            var about := OfKey(init, KeyedBy(idOf), key);
            OfKey(hints, KeyedBy(idOf), key) == if HintKey(h, idOf) == key then about + [h] else about
  {
    var n := |hints| - 1;
    OfKeyPush(hints, n, KeyedBy(idOf), key);
    assert hints[..n + 1] == hints;
    if HintKey(hints[n], idOf) != key { assert OfKey(hints[..n], KeyedBy(idOf), key) + [] == OfKey(hints[..n], KeyedBy(idOf), key); }
  }

  /** A pair keeps everything but its confidence and carries the last hint about it; a new pair is as the first hint about it says. */
  lemma {:induction false} HintEntryExact(deterministic: seq<Relationship>, hints: seq<Hint>, idOf: (FieldRef, FieldRef) -> string, key: string)
    ensures CarriesHints(EntryOf(WithHints(deterministic, hints, idOf), key), EntryOf(deterministic, key),
                         OfKey(hints, KeyedBy(idOf), key), idOf)
  {
    if hints != [] {
      var init, h := hints[..|hints| - 1], hints[|hints| - 1];
      HintEntryExact(deterministic, init, idOf, key);
      HintStep(WithHints(deterministic, init, idOf), EntryOf(deterministic, key), OfKey(init, KeyedBy(idOf), key), h, idOf, key);
      HintsOfPair(hints, idOf, key);
    }
  }

  /** What AI alone reports is likely from a confidence of 0.85 on, possible below it, and never confirmed. */
  lemma AIOnlyIsCapped(c: Candidate, model: string, provider: string, idOf: (FieldRef, FieldRef) -> string, before: seq<Relationship>)
    requires EntryOf(before, FieldPairKey(CandidateToAIRelationship(c, model, provider, idOf))).None?
    ensures var r := CandidateToAIRelationship(c, model, provider, idOf);
            var entry := EntryOf(WithAI(before, [r]), FieldPairKey(r));
            && entry == Some(r) && r.producer == c.producer && r.consumer == c.consumer && r.source == AI
            && r.ai == Some(Corroboration(model, provider, c.confidence, c.rationale))
            && r.confidence == if c.confidence >= 0.85 then LIKELY else POSSIBLE
  {
    var r := CandidateToAIRelationship(c, model, provider, idOf);
    AIEntryExact(before, [r], FieldPairKey(r));
    assert OfKey([r], FieldPairKey, FieldPairKey(r)) == [r] by { assert HasKey(FieldPairKey, FieldPairKey(r))(r); assert [r][1..] == []; }
  }

  /** Grounds for CONFIRMED: confirmed deterministic evidence or a verified declared hint for the same field pair. */
  ghost predicate HasGrounds(r: Relationship, deterministic: seq<Relationship>, hints: seq<Hint>, idOf: (FieldRef, FieldRef) -> string) {
    GroundsFor(FieldPairKey(r), deterministic, hints, idOf)
  }

  ghost predicate GroundsFor(pair: string, deterministic: seq<Relationship>, hints: seq<Hint>, idOf: (FieldRef, FieldRef) -> string) {
    || (exists d :: d in deterministic && d.confidence == CONFIRMED && FieldPairKey(d) == pair)
    || (exists h :: h in hints && h.origin == FromDeclaration && h.verified && HintKey(h, idOf) == pair)
  }

  lemma MoreHintsKeepGrounds(pair: string, deterministic: seq<Relationship>, hints: seq<Hint>, idOf: (FieldRef, FieldRef) -> string)
    requires hints != [] && GroundsFor(pair, deterministic, hints[..|hints| - 1], idOf)
    ensures GroundsFor(pair, deterministic, hints, idOf)
  {
  }

  lemma VerifiedHintIsGround(deterministic: seq<Relationship>, hints: seq<Hint>, h: Hint, idOf: (FieldRef, FieldRef) -> string)
    requires h in hints && HintConfidence(h) == CONFIRMED
    ensures GroundsFor(HintKey(h, idOf), deterministic, hints, idOf)
  {
  }

  /** What one hint can do to one entry: nothing, raise it to its own confidence, or add it. */
  lemma AddHintEntry(merged: seq<Relationship>, h: Hint, idOf: (FieldRef, FieldRef) -> string, i: nat)
    requires i < |AddHint(merged, h, idOf)|
    ensures var r := AddHint(merged, h, idOf)[i];
            || (i < |merged| && FieldPairKey(r) == FieldPairKey(merged[i]) && r.confidence == merged[i].confidence)
            || (FieldPairKey(r) == HintKey(h, idOf) && r.confidence == HintConfidence(h))
  {
    var at := IndexOf(PairKeys(merged), HintKey(h, idOf));
    assert at < |merged| ==> PairKeys(merged)[at] == FieldPairKey(merged[at]);
  }

  lemma {:induction false} HintsConfirmOnGrounds(deterministic: seq<Relationship>, hints: seq<Hint>, idOf: (FieldRef, FieldRef) -> string, i: nat)
    requires i < |WithHints(deterministic, hints, idOf)|
    requires WithHints(deterministic, hints, idOf)[i].confidence == CONFIRMED
    ensures GroundsFor(FieldPairKey(WithHints(deterministic, hints, idOf)[i]), deterministic, hints, idOf)
  {
    if hints == [] {
      assert deterministic[i] in deterministic;
    } else {
      var init, h := hints[..|hints| - 1], hints[|hints| - 1];
      var before := WithHints(deterministic, init, idOf);
      AddHintEntry(before, h, idOf, i);
      var r := AddHint(before, h, idOf)[i];
      if FieldPairKey(r) == HintKey(h, idOf) && r.confidence == HintConfidence(h) {
        VerifiedHintIsGround(deterministic, hints, h, idOf);
      } else {
        HintsConfirmOnGrounds(deterministic, init, idOf, i);
        MoreHintsKeepGrounds(FieldPairKey(before[i]), deterministic, hints, idOf);
      }
    }
  }

  /** A CONFIRMED result never rests on AI or on observed value reuse. */
  lemma {:induction false} ConfirmedNeedsGrounds(
    deterministic: seq<Relationship>, hints: seq<Hint>, candidates: seq<Candidate>,
    model: string, provider: string, idOf: (FieldRef, FieldRef) -> string, i: nat)
    requires var ai := Map(candidates, (c: Candidate) => CandidateToAIRelationship(c, model, provider, idOf));
             && i < |WithAI(WithHints(deterministic, hints, idOf), ai)|
             && WithAI(WithHints(deterministic, hints, idOf), ai)[i].confidence == CONFIRMED
    ensures var ai := Map(candidates, (c: Candidate) => CandidateToAIRelationship(c, model, provider, idOf));
            HasGrounds(WithAI(WithHints(deterministic, hints, idOf), ai)[i], deterministic, hints, idOf)
  {
    var ai := Map(candidates, (c: Candidate) => CandidateToAIRelationship(c, model, provider, idOf));
    var hinted := WithHints(deterministic, hints, idOf);
    AIOnlyIsNotConfirmed(hinted, ai, i);
    AIKeepsClassification(hinted, ai);
    HintsConfirmOnGrounds(deterministic, hints, idOf, i);
    assert FieldPairKey(WithAI(hinted, ai)[i]) == FieldPairKey(hinted[i]);
  }

  lemma {:induction false} AIOnlyIsNotConfirmed(before: seq<Relationship>, ai: seq<Relationship>, i: nat)
    requires forall a :: a in ai ==> a.confidence != CONFIRMED
    requires i < |WithAI(before, ai)| && WithAI(before, ai)[i].confidence == CONFIRMED
    ensures i < |before|
  {
    if ai != [] {
      var init := ai[..|ai| - 1];
      if i < |WithAI(before, init)| {
        AIOnlyIsNotConfirmed(before, init, i);
      }
    }
  }
}
