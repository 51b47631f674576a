/** Grouping an operation's requirements into underlying gaps (backend/src/apiCoverage/summarize.ts). */
module CoverageGaps {
  import opened CoverageClassification
  import opened Sequences
  import opened Ordering

  datatype Kind = OperationKind | Parameter | ParameterCase | RequestSchema | ResponseCode | ResponseSchema

  datatype Group = Positive | Negative | Boundary | Unclassified

  /** `name` is the `label` of the source. */
  datatype Requirement = Requirement(
    id: string, operationKey: string, name: string, kind: Kind, group: Group, state: State, cause: Option<Cause>)

  /** The text key of the source is `cause:state:cause` or `kind:kind`; no part of it can be mistaken for another. */
  datatype GapKey = ByCause(state: State, cause: Option<Cause>) | ByKind(kind: Kind)

  /** `kind` is `None` for a gap of mixed kinds; `total` counts the requirements the gap is worded against. */
  datatype Draft = Draft(operationKey: string, kind: Option<Kind>, cause: Option<Cause>, members: seq<Requirement>, total: nat)

  predicate IsVerified(r: Requirement) {
    r.state.Verified?
  }

  predicate IsUnverified(r: Requirement) {
    !r.state.Verified?
  }

  function OperationOf(r: Requirement): string {
    r.operationKey
  }

  function KindOf(r: Requirement): Kind {
    r.kind
  }

  function GapKeyOf(r: Requirement): GapKey {
    if r.state.NotCovered? then ByKind(r.kind) else ByCause(r.state, r.cause)
  }

  function DraftFor(operationKey: string, requirements: seq<Requirement>, key: GapKey, members: seq<Requirement>): Draft {
    match key
    case ByCause(_, cause) => Draft(operationKey, None, cause, members, 0)
    case ByKind(kind) => Draft(operationKey, Some(kind), None, members, |OfKey(requirements, KindOf, kind)|)
  }

  function DraftOfKey(operationKey: string, requirements: seq<Requirement>): GapKey -> Draft {
    (key: GapKey) => DraftFor(operationKey, requirements, key, OfKey(Filter(requirements, IsUnverified), GapKeyOf, key))
  }

  /** One gap for an operation without scenarios; otherwise one per state and cause, and one per kind not covered. */
  function Drafts(operationKey: string, requirements: seq<Requirement>, scenarioCount: nat): seq<Draft> {
    var unverified := Filter(requirements, IsUnverified);
    if unverified == [] then []
    else if scenarioCount == 0 then [Draft(operationKey, Some(OperationKind), None, unverified, |requirements|)]
    else Map(FirstKeys(unverified, GapKeyOf), DraftOfKey(operationKey, requirements))
  }

  ghost predicate TotalAt(requirements: seq<Requirement>, totals: map<Kind, nat>, kind: Kind) {
    |OfKey(requirements, KindOf, kind)| == if kind in totals then totals[kind] else 0
  }

  ghost predicate AreTotals(requirements: seq<Requirement>, totals: map<Kind, nat>) {
    forall kind {:trigger TotalAt(requirements, totals, kind)} :: TotalAt(requirements, totals, kind)
  }

  lemma TotalPush(requirements: seq<Requirement>, i: nat, totals: map<Kind, nat>)
    requires i < |requirements| && AreTotals(requirements[..i], totals)
    ensures var k := requirements[i].kind;
            AreTotals(requirements[..i + 1], totals[k := (if k in totals then totals[k] else 0) + 1])
  {
    var k := requirements[i].kind;
    var longer, next := requirements[..i + 1], totals[k := (if k in totals then totals[k] else 0) + 1];
    forall kind ensures TotalAt(longer, next, kind) {
      assert TotalAt(requirements[..i], totals, kind);
      OfKeyPush(requirements, i, KindOf, kind);
    }
  }

  method CountKinds(requirements: seq<Requirement>) returns (totals: map<Kind, nat>)
    ensures AreTotals(requirements, totals)
  {
    totals := map[];
    forall kind ensures TotalAt(requirements[..0], totals, kind) {
      assert OfKey(requirements[..0], KindOf, kind) == [];
    }
    for i := 0 to |requirements|
      invariant AreTotals(requirements[..i], totals)
    {
      TotalPush(requirements, i, totals);
      var k := requirements[i].kind;
      totals := totals[k := (if k in totals then totals[k] else 0) + 1];
    }
    assert requirements[..|requirements|] == requirements;
  }

  lemma DraftPush(operationKey: string, requirements: seq<Requirement>, keys: seq<GapKey>, i: nat)
    requires i < |keys|
    ensures Map(keys[..i + 1], DraftOfKey(operationKey, requirements))
         == Map(keys[..i], DraftOfKey(operationKey, requirements)) + [DraftOfKey(operationKey, requirements)(keys[i])]
  {
    assert keys[..i + 1] == keys[..i] + [keys[i]];
    MapAppend(keys[..i], [keys[i]], DraftOfKey(operationKey, requirements));
  }

  /** The drafts of the grouping map, in the order its keys were first seen. */
  method DraftGroups(operationKey: string, requirements: seq<Requirement>, keys: seq<GapKey>, groupOf: map<GapKey, seq<Requirement>>, totals: map<Kind, nat>)
    returns (drafts: seq<Draft>)
    requires Grouped(Filter(requirements, IsUnverified), GapKeyOf, keys, groupOf) && AreTotals(requirements, totals)
    ensures drafts == Map(keys, DraftOfKey(operationKey, requirements))
  {
    drafts := [];
    for i := 0 to |keys|
      invariant drafts == Map(keys[..i], DraftOfKey(operationKey, requirements))
    {
      var key := keys[i];
      assert key in groupOf && GroupAt(Filter(requirements, IsUnverified), GapKeyOf, groupOf, key);
      DraftPush(operationKey, requirements, keys, i);
      if key.ByCause? {
        drafts := drafts + [Draft(operationKey, None, key.cause, groupOf[key], 0)];
      } else {
        assert TotalAt(requirements, totals, key.kind);
        drafts := drafts + [Draft(operationKey, Some(key.kind), None, groupOf[key], if key.kind in totals then totals[key.kind] else 0)];
      }
    }
    assert keys[..|keys|] == keys;
  }

  method DraftGaps(operationKey: string, requirements: seq<Requirement>, scenarioCount: nat) returns (drafts: seq<Draft>)
    ensures drafts == Drafts(operationKey, requirements, scenarioCount)
  {
    var unverified := Filter(requirements, IsUnverified);
    if |unverified| == 0 {
      return [];
    }
    if scenarioCount == 0 {
      return [Draft(operationKey, Some(OperationKind), None, unverified, |requirements|)];
    }
    var totals := CountKinds(requirements);
    var keys, groupOf := GroupBy(unverified, GapKeyOf);
    drafts := DraftGroups(operationKey, requirements, keys, groupOf, totals);
  }

  // ---- Every unverified requirement is in exactly one gap ----

  function MembersOf(d: Draft): seq<Requirement> {
    d.members
  }

  lemma {:induction false} MembersAreGroups(operationKey: string, requirements: seq<Requirement>, keys: seq<GapKey>)
    ensures Map(Map(keys, DraftOfKey(operationKey, requirements)), MembersOf)
         == Map(keys, k => OfKey(Filter(requirements, IsUnverified), GapKeyOf, k))
  {
    if keys != [] { MembersAreGroups(operationKey, requirements, keys[1..]); }
  }

  /** The gaps of an operation partition its unverified requirements; verified requirements are in none. */
  lemma GapsPartition(operationKey: string, requirements: seq<Requirement>, scenarioCount: nat)
    ensures multiset(Flatten(Map(Drafts(operationKey, requirements, scenarioCount), MembersOf)))
         == multiset(Filter(requirements, IsUnverified))
  {
    var unverified := Filter(requirements, IsUnverified);
    if unverified != [] && scenarioCount > 0 {
      FirstKeysComplete(unverified, GapKeyOf);
      GroupsPartition(unverified, GapKeyOf, FirstKeys(unverified, GapKeyOf));
      MembersAreGroups(operationKey, requirements, FirstKeys(unverified, GapKeyOf));
    } else if unverified != [] {
      var d := Draft(operationKey, Some(OperationKind), None, unverified, |requirements|);
      assert Map([d], MembersOf) == [unverified];
      assert [unverified][1..] == [];
    }
  }

  lemma GapsAreNotEmpty(operationKey: string, requirements: seq<Requirement>, scenarioCount: nat, d: Draft)
    requires d in Drafts(operationKey, requirements, scenarioCount)
    ensures d.members != [] && d.operationKey == operationKey
  {
    var unverified := Filter(requirements, IsUnverified);
    if scenarioCount > 0 {
      var keys := FirstKeys(unverified, GapKeyOf);
      var key :| key in keys && d == DraftOfKey(operationKey, requirements)(key);
      FirstKeyUsed(unverified, GapKeyOf, key);
    }
  }

  function Severity(s: State): nat {
    match s
    case ExecutedFailed => 0
    case NotCovered => 1
    case Stale => 2
    case Inconclusive => 3
    case GeneratedNotExecuted => 4
    case Verified => 5
  }

  function BySeverity(le: (string, string) -> bool): (Requirement, Requirement) -> bool {
    (a: Requirement, b: Requirement) => Severity(a.state) < Severity(b.state) || (a.state == b.state && le(a.id, b.id))
  }

  /** `[...draft.members].sort(...)[0].state` */
  function WorstState(members: seq<Requirement>, le: (string, string) -> bool): State {
    var sorted := SortBy(members, BySeverity(le));
    if sorted == [] then NotCovered else sorted[0].state
  }

  /** Where an operation has no scenario, nothing can be mapped to its requirements. */
  ghost predicate UncoveredWithoutScenarios(requirements: seq<Requirement>, scenarioCount: nat) {
    scenarioCount == 0 ==> forall r :: r in requirements ==> r.state.NotCovered?
  }

  lemma WorstOfUniform(members: seq<Requirement>, s: State, le: (string, string) -> bool)
    requires members != [] && forall r :: r in members ==> r.state == s
    ensures WorstState(members, le) == s
  {
    SortByPermutes(members, BySeverity(le));
    SortByMembers(members, BySeverity(le));
    var sorted := SortBy(members, BySeverity(le));
    assert sorted[0] in sorted;
  }

  lemma KeyedGapIsUniform(requirements: seq<Requirement>, key: GapKey, members: seq<Requirement>, le: (string, string) -> bool)
    requires members == OfKey(Filter(requirements, IsUnverified), GapKeyOf, key) && members != []
    ensures forall r :: r in members ==> r.state == WorstState(members, le) && !r.state.Verified?
  {
    assert forall r :: r in members <==> r in Filter(requirements, IsUnverified) && HasKey(GapKeyOf, key)(r);
    forall r | r in members ensures r.state == (if key.ByCause? then key.state else NotCovered) && IsUnverified(r) {
      assert r in Filter(requirements, IsUnverified) && GapKeyOf(r) == key;
    }
    WorstOfUniform(members, if key.ByCause? then key.state else NotCovered, le);
  }

  /** All members of a gap share one state, which is the state the gap is given. */
  lemma GapsAreUniform(operationKey: string, requirements: seq<Requirement>, scenarioCount: nat, d: Draft, le: (string, string) -> bool)
    requires UncoveredWithoutScenarios(requirements, scenarioCount) && d in Drafts(operationKey, requirements, scenarioCount)
    ensures forall r :: r in d.members ==> r.state == WorstState(d.members, le) && !r.state.Verified?
  {
    GapsAreNotEmpty(operationKey, requirements, scenarioCount, d);
    if scenarioCount == 0 {
      WorstOfUniform(d.members, NotCovered, le);
    } else {
      var keys := FirstKeys(Filter(requirements, IsUnverified), GapKeyOf);
      var key :| key in keys && d == DraftOfKey(operationKey, requirements)(key);
      KeyedGapIsUniform(requirements, key, d.members, le);
    }
  }

  lemma MemberOfSome(drafts: seq<Draft>, unverified: seq<Requirement>, r: Requirement)
    requires multiset(Flatten(Map(drafts, MembersOf))) == multiset(unverified)
    ensures r in unverified <==> exists d :: d in drafts && r in d.members
  {
    var members := Map(drafts, MembersOf);
    FlattenMembers(members, r);
    assert r in Flatten(members) <==> r in multiset(unverified);
    if d :| d in drafts && r in d.members {
      var i :| 0 <= i < |drafts| && drafts[i] == d;
      assert r in members[i];
    }
    if i :| 0 <= i < |members| && r in members[i] {
      assert drafts[i] in drafts && r in drafts[i].members;
    }
  }

  /** Each unverified requirement is a member of a gap, and each member is an unverified requirement of the operation. */
  lemma GapMembership(operationKey: string, requirements: seq<Requirement>, scenarioCount: nat, r: Requirement)
    ensures r in requirements && !r.state.Verified? <==> exists d :: d in Drafts(operationKey, requirements, scenarioCount) && r in d.members
  {
    GapsPartition(operationKey, requirements, scenarioCount);
    MemberOfSome(Drafts(operationKey, requirements, scenarioCount), Filter(requirements, IsUnverified), r);
  }

  // ---- What each gap holds ----

  lemma CauseGapHolds(requirements: seq<Requirement>, s: State, cause: Option<Cause>)
    requires !s.Verified? && !s.NotCovered?
    ensures OfKey(Filter(requirements, IsUnverified), GapKeyOf, ByCause(s, cause))
         == Filter(requirements, (r: Requirement) => r.state == s && r.cause == cause)
  {
    FilterTwice(requirements, IsUnverified, HasKey(GapKeyOf, ByCause(s, cause)), (r: Requirement) => r.state == s && r.cause == cause);
  }

  lemma KindGapHolds(requirements: seq<Requirement>, kind: Kind)
    ensures OfKey(Filter(requirements, IsUnverified), GapKeyOf, ByKind(kind))
         == Filter(requirements, (r: Requirement) => r.state.NotCovered? && r.kind == kind)
  {
    FilterTwice(requirements, IsUnverified, HasKey(GapKeyOf, ByKind(kind)), (r: Requirement) => r.state.NotCovered? && r.kind == kind);
  }

  lemma KindTotal(requirements: seq<Requirement>, kind: Kind)
    ensures OfKey(requirements, KindOf, kind) == Filter(requirements, (r: Requirement) => r.kind == kind)
  {
    FilterSame(requirements, HasKey(KindOf, kind), (r: Requirement) => r.kind == kind);
  }

  /** A gap of mixed kinds holds the requirements of one state and its cause; no total is counted for it. */
  ghost predicate HoldsState(requirements: seq<Requirement>, d: Draft, s: State) {
    && s != Verified && s != NotCovered && d.total == 0
    && d.members == Filter(requirements, (r: Requirement) => r.state == s && r.cause == d.cause)
  }

  /** A gap of one kind holds what is not covered of it, out of all requirements of the kind. */
  ghost predicate HoldsKind(requirements: seq<Requirement>, d: Draft, kind: Kind) {
    && d.cause == None && d.total == |Filter(requirements, (r: Requirement) => r.kind == kind)|
    && d.members == Filter(requirements, (r: Requirement) => r.state.NotCovered? && r.kind == kind)
  }

  /** What the gaps of an operation with scenarios hold, by their kinds. */
  lemma GapsHold(operationKey: string, requirements: seq<Requirement>, scenarioCount: nat, d: Draft)
    requires d in Drafts(operationKey, requirements, scenarioCount) && scenarioCount > 0
    ensures d.operationKey == operationKey
    ensures d.kind.None? ==> exists s :: HoldsState(requirements, d, s)
    ensures d.kind.Some? ==> HoldsKind(requirements, d, d.kind.value)
  {
    var keys := FirstKeys(Filter(requirements, IsUnverified), GapKeyOf);
    var key :| key in keys && d == DraftOfKey(operationKey, requirements)(key);
    FirstKeyUsed(Filter(requirements, IsUnverified), GapKeyOf, key);
    KeyedGapHolds(operationKey, requirements, key);
  }

  lemma KeyedGapHolds(operationKey: string, requirements: seq<Requirement>, key: GapKey)
    requires OfKey(Filter(requirements, IsUnverified), GapKeyOf, key) != []
    ensures var d := DraftOfKey(operationKey, requirements)(key);
            && (key.ByCause? ==> d.kind.None? && HoldsState(requirements, d, key.state))
            && (key.ByKind? ==> d.kind == Some(key.kind) && HoldsKind(requirements, d, key.kind))
  {
    var first := OfKey(Filter(requirements, IsUnverified), GapKeyOf, key)[0];
    assert first in OfKey(Filter(requirements, IsUnverified), GapKeyOf, key);
    match key
    case ByCause(s, cause) =>
      CauseGapHolds(requirements, s, cause);
    case ByKind(kind) =>
      KindGapHolds(requirements, kind);
      KindTotal(requirements, kind);
  }

  /** An operation without scenarios has one gap, and none when every requirement is verified. */
  lemma OneGapWithoutScenarios(operationKey: string, requirements: seq<Requirement>)
    ensures var unverified := Filter(requirements, (r: Requirement) => !r.state.Verified?);
            (Drafts(operationKey, requirements, 0)
             == if unverified == [] then [] else [Draft(operationKey, Some(OperationKind), None, unverified, |requirements|)])
  {
    FilterSame(requirements, IsUnverified, (r: Requirement) => !r.state.Verified?);
  }

  // ---- The state of a gap ----

  ghost predicate HasState(members: seq<Requirement>, s: State) {
    exists r :: r in members && r.state == s
  }

  lemma SeveritiesDiffer(s: State, t: State)
    ensures Severity(s) == Severity(t) ==> s == t
  {
  }

  lemma BySeverityIsOrder(le: (string, string) -> bool)
    requires TotalPreorder(le)
    ensures TotalPreorder(BySeverity(le))
  {
    forall a: Requirement, b: Requirement ensures BySeverity(le)(a, b) || BySeverity(le)(b, a) {
      SeveritiesDiffer(a.state, b.state);
      assert le(a.id, b.id) || le(b.id, a.id);
    }
    forall a: Requirement, b: Requirement, c: Requirement | BySeverity(le)(a, b) && BySeverity(le)(b, c) ensures BySeverity(le)(a, c) {
      assert le(a.id, b.id) && le(b.id, c.id) ==> le(a.id, c.id);
    }
  }

  /** The state of some members is the gravest they have: failed, not covered, stale, inconclusive, not executed, verified. */
  lemma GravestState(members: seq<Requirement>, le: (string, string) -> bool)
    requires TotalPreorder(le) && members != []
    ensures WorstState(members, le)
         == if HasState(members, ExecutedFailed) then ExecutedFailed
            else if HasState(members, NotCovered) then NotCovered
            else if HasState(members, Stale) then Stale
            else if HasState(members, Inconclusive) then Inconclusive
            else if HasState(members, GeneratedNotExecuted) then GeneratedNotExecuted
            else Verified
  {
    var sorted := SortBy(members, BySeverity(le));
    BySeverityIsOrder(le);
    SortByPermutes(members, BySeverity(le));
    SortByMembers(members, BySeverity(le));
    SortBySorted(members, BySeverity(le));
    assert sorted[0] in members;
    forall r | r in members ensures Severity(sorted[0].state) <= Severity(r.state) {
      var i :| 0 <= i < |sorted| && sorted[i] == r;
      assert i > 0 ==> BySeverity(le)(sorted[0], sorted[i]);
    }
  }
}
