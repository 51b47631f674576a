/** What execution evidence establishes about a coverage requirement (backend/src/apiCoverage/classify.ts). */
module CoverageClassification {
  import opened Sequences
  import opened Ordering

  datatype CheckOutcome = CheckPassed | CheckFailed | NotEvaluated

  datatype CheckKind = StatusCodeCheck | SchemaConformanceCheck | OtherCheck

  datatype Check = Check(kind: CheckKind, expectedStatusCode: Option<string>, outcome: CheckOutcome)

  /** The chosen execution result of one scenario; `failed` is its recorded outcome. */
  datatype Evidence = Evidence(
    scenarioId: string, runId: string, startedAt: string,
    failed: bool, noResponse: bool, edited: bool, checks: seq<Check>,
    stale: bool, staleReason: Option<string>, staleSince: Option<string>)

  datatype Scope = StatusScope | StatusCodeScope | SchemaScope | AnyScope

  datatype Mapped = Mapped(scenarioId: string, scope: Scope, responseCode: Option<string>)

  datatype Verdict = Fails | Verifies | IsInconclusive | IsStale

  datatype Cause =
    | AssertionFailed | TransportError | CheckNotEvaluated | NoRelevantCheck | RequestEdited
    | BlockedByDependency | RunCancelled | NotReached | NeverRun | NotInSelectedRun

  datatype VerdictResult = VerdictResult(verdict: Verdict, cause: Option<Cause>)

  // ---- One result, one requirement ----

  predicate IsRelevant(m: Mapped, c: Check) {
    match m.scope
    case StatusScope => c.kind.StatusCodeCheck?
    case StatusCodeScope => c.kind.StatusCodeCheck? && c.expectedStatusCode == m.responseCode
    case SchemaScope => c.kind.SchemaConformanceCheck?
    case AnyScope => true
  }

  function RelevantTo(m: Mapped): Check -> bool {
    (c: Check) => IsRelevant(m, c)
  }

  function VerdictFor(m: Mapped, e: Evidence): VerdictResult {
    if e.stale then VerdictResult(IsStale, None)
    else if e.edited then VerdictResult(IsInconclusive, Some(RequestEdited))
    else
      var checks := Filter(e.checks, RelevantTo(m));
      if exists c :: c in checks && c.outcome.CheckFailed? then VerdictResult(Fails, Some(AssertionFailed))
      else if e.noResponse then VerdictResult(IsInconclusive, Some(TransportError))
      else if |checks| == 0 then
        if m.scope.AnyScope? && e.failed then VerdictResult(Fails, Some(AssertionFailed))
        else VerdictResult(IsInconclusive, Some(NoRelevantCheck))
      else if exists c :: c in checks && c.outcome.NotEvaluated? then VerdictResult(IsInconclusive, Some(CheckNotEvaluated))
      else if m.scope.AnyScope? && e.failed then VerdictResult(Fails, Some(AssertionFailed))
      else VerdictResult(Verifies, None)
  }

  ghost predicate SomeRelevant(m: Mapped, e: Evidence, outcome: CheckOutcome) {
    exists c :: c in e.checks && IsRelevant(m, c) && c.outcome == outcome
  }

  /** A result verifies a requirement only through relevant checks that were evaluated, every one of which passed. */
  lemma VerifiesOnlyByChecks(m: Mapped, e: Evidence)
    ensures VerdictFor(m, e).verdict.Verifies? <==>
            && !e.stale && !e.edited && !e.noResponse
            && (exists c :: c in e.checks && IsRelevant(m, c))
            && (forall c :: c in e.checks && IsRelevant(m, c) ==> c.outcome.CheckPassed?)
            && !(m.scope.AnyScope? && e.failed)
  {
    var checks := Filter(e.checks, RelevantTo(m));
    if checks != [] { assert checks[0] in checks; }
    assert forall c :: c in checks <==> c in e.checks && RelevantTo(m)(c);
  }

  /** A result fails a requirement only by a failed relevant check, or as a whole where every check counts. */
  lemma FailsOnlyByChecks(m: Mapped, e: Evidence)
    ensures VerdictFor(m, e).verdict.Fails? <==>
            && !e.stale && !e.edited
            && (|| SomeRelevant(m, e, CheckFailed)
                || (m.scope.AnyScope? && e.failed && !e.noResponse && !SomeRelevant(m, e, NotEvaluated)))
  {
    var checks := Filter(e.checks, RelevantTo(m));
    assert forall c :: c in checks <==> c in e.checks && RelevantTo(m)(c);
    if checks != [] { assert checks[0] in checks; }
  }

  /** Which checks count for a requirement: by scope, kind of check and expected status code. */
  lemma ScopesRead(m: Mapped, c: Check)
    ensures IsRelevant(m, c) <==>
            || m.scope.AnyScope?
            || (m.scope.SchemaScope? && c.kind.SchemaConformanceCheck?)
            || (c.kind.StatusCodeCheck? && (m.scope.StatusScope? || (m.scope.StatusCodeScope? && c.expectedStatusCode == m.responseCode)))
  {
  }

  ghost predicate SomeRelevantCheck(m: Mapped, e: Evidence) {
    exists c :: c in e.checks && IsRelevant(m, c)
  }

  /** A verdict with its cause: stale first, then an edited request, a failed check, a missing response, too few checks. */
  lemma CausesAre(m: Mapped, e: Evidence)
    ensures VerdictFor(m, e).verdict.IsStale? <==> e.stale
    ensures VerdictFor(m, e).verdict.Fails? ==> VerdictFor(m, e).cause == Some(AssertionFailed)
    ensures VerdictFor(m, e).verdict.Verifies? || VerdictFor(m, e).verdict.IsStale? ==> VerdictFor(m, e).cause == None
    ensures VerdictFor(m, e).verdict.IsInconclusive? ==>
              VerdictFor(m, e).cause == Some(if e.edited then RequestEdited
                                             else if e.noResponse then TransportError
                                             else if !SomeRelevantCheck(m, e) then NoRelevantCheck
                                             else CheckNotEvaluated)
  {
    var checks := Filter(e.checks, RelevantTo(m));
    if checks != [] { assert checks[0] in checks; }
    assert forall c :: c in checks <==> c in e.checks && IsRelevant(m, c);
  }

  // ---- States ----

  datatype State = NotCovered | GeneratedNotExecuted | Stale | Inconclusive | Verified | ExecutedFailed

  function Rank(s: State): nat {
    match s
    case NotCovered => 0
    case GeneratedNotExecuted => 1
    case Stale => 2
    case Inconclusive => 3
    case Verified => 4
    case ExecutedFailed => 5
  }

  function Higher(a: State, b: State): State {
    if Rank(a) < Rank(b) then b else a
  }

  /** The join of what every mapped scenario establishes. */
  function Join(states: seq<State>): State {
    if states == [] then NotCovered else Higher(states[0], Join(states[1..]))
  }

  lemma {:induction false} JoinIsGreatest(states: seq<State>)
    ensures forall s :: s in states ==> Rank(s) <= Rank(Join(states))
    ensures states != [] ==> Join(states) in states
  {
    if states != [] {
      JoinIsGreatest(states[1..]);
      assert states == [states[0]] + states[1..];
      if states[1..] == [] { assert Join(states[1..]) == NotCovered; }
    }
  }

  /** Adding a scenario never lowers a state. */
  lemma JoinNeverLowered(states: seq<State>, more: seq<State>)
    ensures Rank(Join(states)) <= Rank(Join(states + more))
  {
    JoinIsGreatest(states);
    JoinIsGreatest(states + more);
    if states != [] { assert Join(states) in states + more; }
  }

  lemma JoinIgnoresOrder(a: seq<State>, b: seq<State>)
    requires multiset(a) == multiset(b)
    ensures Join(a) == Join(b)
  {
    JoinIsGreatest(a);
    JoinIsGreatest(b);
    assert |multiset(a)| == |multiset(b)|;
    if a != [] {
      assert Join(a) in multiset(b) && Join(b) in multiset(a);
      assert Rank(Join(a)) == Rank(Join(b));
    }
  }

  /** The tests the code makes, in its order. */
  lemma JoinByPresence(states: seq<State>)
    requires states != [] && NotCovered !in states
    ensures Join(states) ==
            if ExecutedFailed in states then ExecutedFailed
            else if Verified in states then Verified
            else if Inconclusive in states then Inconclusive
            else if Stale in states then Stale
            else GeneratedNotExecuted
  {
    JoinIsGreatest(states);
  }

  // ---- Classifying a requirement ----

  datatype Tally = Tally(passed: nat, failed: nat, inconclusive: nat, notExecuted: nat)

  datatype Ref = Ref(scenarioId: string, runId: string, startedAt: string, verdict: Verdict, cause: Option<Cause>)

  datatype Staleness = Staleness(reason: Option<string>, since: Option<string>)

  /** `staleness` is empty unless the state is `stale`; `reExecutionRequired` is set in that state only. */
  datatype Classification = Classification(
    state: State, cause: Option<Cause>, tally: Tally, evidence: seq<Ref>, staleness: Staleness, reExecutionRequired: bool)

  const NOT_STALE := Staleness(None, None)

  /** The evidence chosen per scenario, and why a scenario without evidence has none. */
  datatype Known = Known(evidenceOf: string -> Option<Evidence>, missingCauseOf: string -> Cause)

  function StateOfVerdict(v: Verdict): State {
    match v
    case Fails => ExecutedFailed
    case Verifies => Verified
    case IsInconclusive => Inconclusive
    case IsStale => Stale
  }

  /** What one mapped scenario establishes. */
  function Contribution(known: Known, m: Mapped): State {
    var evidence := known.evidenceOf(m.scenarioId);
    if evidence.None? then GeneratedNotExecuted else StateOfVerdict(VerdictFor(m, evidence.value).verdict)
  }

  function RefsOf(known: Known, m: Mapped): seq<Ref> {
    var evidence := known.evidenceOf(m.scenarioId);
    if evidence.None? then []
    else
      var e, v := evidence.value, VerdictFor(m, evidence.value);
      [Ref(e.scenarioId, e.runId, e.startedAt, v.verdict, v.cause)]
  }

  function MissingOf(known: Known, m: Mapped): seq<Cause> {
    if known.evidenceOf(m.scenarioId).None? then [known.missingCauseOf(m.scenarioId)] else []
  }

  function States(known: Known, mapped: seq<Mapped>): seq<State> {
    FlatMap(mapped, m => [Contribution(known, m)])
  }

  function Refs(known: Known, mapped: seq<Mapped>): seq<Ref> {
    FlatMap(mapped, m => RefsOf(known, m))
  }

  function MissingCauses(known: Known, mapped: seq<Mapped>): seq<Cause> {
    FlatMap(mapped, m => MissingOf(known, m))
  }

  function ReasonOf(e: Evidence): Option<string> {
    e.staleReason
  }

  function SinceOf(e: Evidence): Option<string> {
    e.staleSince
  }

  function StaleTextOf(known: Known, m: Mapped, text: Evidence -> Option<string>): seq<string> {
    var evidence := known.evidenceOf(m.scenarioId);
    if evidence.Some? && VerdictFor(m, evidence.value).verdict.IsStale? && text(evidence.value).Some?
    then [text(evidence.value).value] else []
  }

  /** The reasons, or the dates, that the stale evidence of the mapped scenarios gives. */
  function StaleTexts(known: Known, mapped: seq<Mapped>, text: Evidence -> Option<string>): seq<string> {
    FlatMap(mapped, m => StaleTextOf(known, m, text))
  }

  function First(texts: seq<string>): Option<string> {
    if texts == [] then None else Some(texts[0])
  }

  function StalenessOf(known: Known, mapped: seq<Mapped>): Staleness {
    Staleness(First(StaleTexts(known, mapped, ReasonOf)), First(StaleTexts(known, mapped, SinceOf)))
  }

  function TallyOf(states: seq<State>): Tally {
    Tally(multiset(states)[Verified], multiset(states)[ExecutedFailed],
          multiset(states)[Inconclusive] + multiset(states)[Stale], multiset(states)[GeneratedNotExecuted])
  }

  const MISSING_CAUSE_ORDER := [BlockedByDependency, RunCancelled, NotReached, NotInSelectedRun, NeverRun]

  function FirstOf(order: seq<Cause>, present: seq<Cause>): Cause {
    if order == [] then NeverRun else if order[0] in present then order[0] else FirstOf(order[1..], present)
  }

  function VerdictOrder(v: Verdict): nat {
    match v
    case Fails => 0
    case Verifies => 1
    case IsInconclusive => 2
    case IsStale => 3
  }

  function RefLe(le: (string, string) -> bool): (Ref, Ref) -> bool {
    (a: Ref, b: Ref) =>
      VerdictOrder(a.verdict) < VerdictOrder(b.verdict) || (a.verdict == b.verdict && le(a.scenarioId, b.scenarioId))
  }

  function FirstInconclusive(refs: seq<Ref>): Option<Cause> {
    if refs == [] then None else if refs[0].verdict.IsInconclusive? then refs[0].cause else FirstInconclusive(refs[1..])
  }

  function CauseOf(state: State, missing: seq<Cause>, sorted: seq<Ref>): Option<Cause> {
    match state
    case GeneratedNotExecuted => Some(FirstOf(MISSING_CAUSE_ORDER, missing))
    case ExecutedFailed => Some(AssertionFailed)
    case Inconclusive => FirstInconclusive(sorted)
    case _ => None
  }

  function AtMostThree(refs: seq<Ref>): seq<Ref> {
    if |refs| <= 3 then refs else refs[..3]
  }

  /** The classification is the join of the contributions, with their tally and the first references. */
  function ClassificationOf(known: Known, mapped: seq<Mapped>, le: (string, string) -> bool): Classification {
    var states := States(known, mapped);
    var sorted := SortBy(Refs(known, mapped), RefLe(le));
    Classification(Join(states), CauseOf(Join(states), MissingCauses(known, mapped), sorted), TallyOf(states), AtMostThree(sorted),
                   if Join(states).Stale? then StalenessOf(known, mapped) else NOT_STALE, Join(states).Stale?)
  }

  lemma MappedPush(known: Known, mapped: seq<Mapped>, i: nat)
    requires i < |mapped|
    ensures States(known, mapped[..i + 1]) == States(known, mapped[..i]) + [Contribution(known, mapped[i])]
    ensures Refs(known, mapped[..i + 1]) == Refs(known, mapped[..i]) + RefsOf(known, mapped[i])
    ensures MissingCauses(known, mapped[..i + 1]) == MissingCauses(known, mapped[..i]) + MissingOf(known, mapped[i])
  {
    FlatMapPush(mapped, i, m => [Contribution(known, m)]);
    FlatMapPush(mapped, i, m => RefsOf(known, m));
    FlatMapPush(mapped, i, m => MissingOf(known, m));
  }

  /** `text ??= more` */
  function OrElse(text: Option<string>, more: Option<string>): Option<string> {
    if text.Some? then text else more
  }

  /** The staleness once one more scenario is looked at. */
  function WithStale(known: Known, m: Mapped, before: Staleness): Staleness {
    var evidence := known.evidenceOf(m.scenarioId);
    if evidence.Some? && VerdictFor(m, evidence.value).verdict.IsStale?
    then Staleness(OrElse(before.reason, evidence.value.staleReason), OrElse(before.since, evidence.value.staleSince))
    else before
  }

  lemma StalePush(known: Known, mapped: seq<Mapped>, i: nat)
    requires i < |mapped|
    ensures StalenessOf(known, mapped[..i + 1]) == WithStale(known, mapped[i], StalenessOf(known, mapped[..i]))
  {
    StaleTextPush(known, mapped, i, ReasonOf);
    StaleTextPush(known, mapped, i, SinceOf);
  }

  lemma StaleTextPush(known: Known, mapped: seq<Mapped>, i: nat, text: Evidence -> Option<string>)
    requires i < |mapped|
    ensures First(StaleTexts(known, mapped[..i + 1], text))
         == OrElse(First(StaleTexts(known, mapped[..i], text)), First(StaleTextOf(known, mapped[i], text)))
  {
    FlatMapPush(mapped, i, m => StaleTextOf(known, m, text));
    FirstJoined(StaleTexts(known, mapped[..i], text), StaleTextOf(known, mapped[i], text));
  }

  lemma FirstJoined(a: seq<string>, b: seq<string>)
    ensures First(a + b) == if a == [] then First(b) else First(a)
  {
  }

  ghost predicate HasVerdict(known: Known, mapped: seq<Mapped>, v: Verdict) {
    exists r :: r in Refs(known, mapped) && r.verdict == v
  }

  /** The verdicts of the references are the states of the executed scenarios. */
  lemma RefsCarryStates(known: Known, mapped: seq<Mapped>, v: Verdict)
    ensures StateOfVerdict(v) in States(known, mapped) <==> HasVerdict(known, mapped, v)
  {
    FlatMapMember(mapped, m => [Contribution(known, m)], StateOfVerdict(v));
    if StateOfVerdict(v) in States(known, mapped) {
      var i :| 0 <= i < |mapped| && StateOfVerdict(v) in [Contribution(known, mapped[i])];
      var r := RefsOf(known, mapped[i])[0];
      FlatMapMember(mapped, m => RefsOf(known, m), r);
      assert r in RefsOf(known, mapped[i]);
      assert r in Refs(known, mapped) && r.verdict == v;
    }
    if HasVerdict(known, mapped, v) {
      var r :| r in Refs(known, mapped) && r.verdict == v;
      FlatMapMember(mapped, m => RefsOf(known, m), r);
      var i :| 0 <= i < |mapped| && r in RefsOf(known, mapped[i]);
      assert StateOfVerdict(v) in [Contribution(known, mapped[i])];
    }
  }

  lemma {:induction false} StatesShape(known: Known, mapped: seq<Mapped>)
    ensures |States(known, mapped)| == |mapped| && NotCovered !in States(known, mapped)
    ensures Refs(known, mapped) == [] ==> forall s :: s in States(known, mapped) ==> s == GeneratedNotExecuted
  {
    if mapped != [] { StatesShape(known, mapped[1..]); }
  }

  lemma OnlyMember<T>(s: set<T>, x: T)
    ensures |s| == 1 && x in s <==> s == {x}
  {
    if |s| == 1 && x in s { assert |s - {x}| == 0; }
  }

  /** Branch by branch, the state the code answers is the join. */
  lemma StateByVerdicts(known: Known, mapped: seq<Mapped>, verdicts: set<Verdict>)
    requires mapped != [] && Refs(known, mapped) != []
    requires forall v :: v in verdicts <==> HasVerdict(known, mapped, v)
    ensures Join(States(known, mapped)) ==
            if Fails in verdicts then ExecutedFailed
            else if Verifies in verdicts then Verified
            else if |verdicts| == 1 && IsStale in verdicts then Stale
            else Inconclusive
  {
    var states := States(known, mapped);
    StatesShape(known, mapped);
    JoinByPresence(states);
    OnlyMember(verdicts, IsStale);
    RefsCarryStates(known, mapped, Fails);
    RefsCarryStates(known, mapped, Verifies);
    RefsCarryStates(known, mapped, IsInconclusive);
    RefsCarryStates(known, mapped, IsStale);
    var r := Refs(known, mapped)[0];
    assert HasVerdict(known, mapped, r.verdict);
    assert r.verdict in verdicts;
  }

  /** What the loop over the mapped scenarios has gathered. */
  datatype Gathered = Gathered(tally: Tally, refs: seq<Ref>, missingCauses: seq<Cause>, staleness: Staleness)

  function GatheredFrom(known: Known, mapped: seq<Mapped>): Gathered {
    Gathered(TallyOf(States(known, mapped)), Refs(known, mapped), MissingCauses(known, mapped), StalenessOf(known, mapped))
  }

  function TallyWith(t: Tally, s: State): Tally {
    match s
    case Verified => t.(passed := t.passed + 1)
    case ExecutedFailed => t.(failed := t.failed + 1)
    case Inconclusive => t.(inconclusive := t.inconclusive + 1)
    case Stale => t.(inconclusive := t.inconclusive + 1)
    case GeneratedNotExecuted => t.(notExecuted := t.notExecuted + 1)
    case NotCovered => t
  }

  function GatherWith(known: Known, g: Gathered, m: Mapped): Gathered {
    Gathered(TallyWith(g.tally, Contribution(known, m)), g.refs + RefsOf(known, m), g.missingCauses + MissingOf(known, m),
             WithStale(known, m, g.staleness))
  }

  lemma TallyPush(states: seq<State>, s: State)
    ensures TallyOf(states + [s]) == TallyWith(TallyOf(states), s)
  {
  }

  lemma GatherPush(known: Known, mapped: seq<Mapped>, i: nat)
    requires i < |mapped|
    ensures GatheredFrom(known, mapped[..i + 1]) == GatherWith(known, GatheredFrom(known, mapped[..i]), mapped[i])
  {
    MappedPush(known, mapped, i);
    TallyPush(States(known, mapped[..i]), Contribution(known, mapped[i]));
    StalePush(known, mapped, i);
  }

  /** The body of the loop. */
  method GatherOne(known: Known, g: Gathered, m: Mapped) returns (next: Gathered)
    ensures next == GatherWith(known, g, m)
  {
    var tally, staleness := g.tally, g.staleness;
    var evidence := known.evidenceOf(m.scenarioId);
    if evidence.None? {
      assert g.refs + [] == g.refs;
      return Gathered(tally.(notExecuted := tally.notExecuted + 1), g.refs, g.missingCauses + [known.missingCauseOf(m.scenarioId)], staleness);
    }
    var result := VerdictFor(m, evidence.value);
    if result.verdict.Verifies? {
      tally := tally.(passed := tally.passed + 1);
    } else if result.verdict.Fails? {
      tally := tally.(failed := tally.failed + 1);
    } else {
      tally := tally.(inconclusive := tally.inconclusive + 1);
    }
    if result.verdict.IsStale? {
      staleness := Staleness(OrElse(staleness.reason, evidence.value.staleReason), OrElse(staleness.since, evidence.value.staleSince));
    }
    var ref := Ref(evidence.value.scenarioId, evidence.value.runId, evidence.value.startedAt, result.verdict, result.cause);
    assert g.missingCauses + [] == g.missingCauses;
    return Gathered(tally, g.refs + [ref], g.missingCauses, staleness);
  }

  /** The loop over the mapped scenarios. */
  method Gather(known: Known, mapped: seq<Mapped>) returns (g: Gathered)
    ensures g == GatheredFrom(known, mapped)
  {
    g := Gathered(Tally(0, 0, 0, 0), [], [], NOT_STALE);
    for i := 0 to |mapped|
      invariant g == GatheredFrom(known, mapped[..i])
    {
      GatherPush(known, mapped, i);
      g := GatherOne(known, g, mapped[i]);
    }
    assert mapped[..|mapped|] == mapped;
  }

  /** The classification, put together from what was gathered. */
  function Assembled(state: State, g: Gathered, le: (string, string) -> bool): Classification {
    var sorted := SortBy(g.refs, RefLe(le));
    Classification(state, CauseOf(state, g.missingCauses, sorted), g.tally, AtMostThree(sorted),
                   if state.Stale? then g.staleness else NOT_STALE, state.Stale?)
  }

  lemma NothingExecuted(known: Known, mapped: seq<Mapped>)
    requires mapped != [] && Refs(known, mapped) == []
    ensures Join(States(known, mapped)) == GeneratedNotExecuted
  {
    StatesShape(known, mapped);
    JoinIsGreatest(States(known, mapped));
  }

  /** The tests on the verdicts, when some mapped scenario was executed. */
  method ClassifyExecuted(g: Gathered, le: (string, string) -> bool) returns (c: Classification)
    ensures var verdicts := set r | r in g.refs :: r.verdict;
            c == Assembled(if Fails in verdicts then ExecutedFailed
                           else if Verifies in verdicts then Verified
                           else if |verdicts| == 1 && IsStale in verdicts then Stale
                           else Inconclusive, g, le)
  {
    var sorted := SortBy(g.refs, RefLe(le));
    var verdicts := set r | r in g.refs :: r.verdict;
    var bounded := AtMostThree(sorted);
    if Fails in verdicts {
      return Classification(ExecutedFailed, Some(AssertionFailed), g.tally, bounded, NOT_STALE, false);
    }
    if Verifies in verdicts {
      return Classification(Verified, None, g.tally, bounded, NOT_STALE, false);
    }
    if |verdicts| == 1 && IsStale in verdicts {
      return Classification(Stale, None, g.tally, bounded, g.staleness, true);
    }
    return Classification(Inconclusive, FirstInconclusive(sorted), g.tally, bounded, NOT_STALE, false);
  }

  method ClassifyRequirement(known: Known, mapped: seq<Mapped>, le: (string, string) -> bool) returns (c: Classification)
    ensures c == ClassificationOf(known, mapped, le)
  {
    if |mapped| == 0 {
      return Classification(NotCovered, None, Tally(0, 0, 0, 0), [], NOT_STALE, false);
    }
    var g := Gather(known, mapped);
    if |g.refs| == 0 {
      NothingExecuted(known, mapped);
      return Classification(GeneratedNotExecuted, Some(FirstOf(MISSING_CAUSE_ORDER, g.missingCauses)), g.tally, [], NOT_STALE, false);
    }
    StateByVerdicts(known, mapped, set r | r in g.refs :: r.verdict);
    assert ClassificationOf(known, mapped, le) == Assembled(Join(States(known, mapped)), g, le);
    c := ClassifyExecuted(g, le);
  }

  // ---- What classification promises ----

  lemma {:induction false} StatesAreCounted(states: seq<State>)
    requires NotCovered !in states
    ensures var t := TallyOf(states); t.passed + t.failed + t.inconclusive + t.notExecuted == |states|
  {
    if states != [] {
      var init, last := states[..|states| - 1], states[|states| - 1];
      assert states == init + [last];
      StatesAreCounted(init);
      TallyPush(init, last);
    }
  }

  /** Of several reasons why scenarios did not run, the most specific one is reported. */
  lemma MostSpecificCause(known: Known, mapped: seq<Mapped>, le: (string, string) -> bool)
    requires ClassificationOf(known, mapped, le).state.GeneratedNotExecuted?
    ensures var missing := MissingCauses(known, mapped);
            ClassificationOf(known, mapped, le).cause ==
            Some(if BlockedByDependency in missing then BlockedByDependency
                 else if RunCancelled in missing then RunCancelled
                 else if NotReached in missing then NotReached
                 else if NotInSelectedRun in missing then NotInSelectedRun
                 else NeverRun)
  {
    var missing := MissingCauses(known, mapped);
    FirstOfCons(NeverRun, [], missing);
    FirstOfCons(NotInSelectedRun, [NeverRun], missing);
    FirstOfCons(NotReached, [NotInSelectedRun, NeverRun], missing);
    FirstOfCons(RunCancelled, [NotReached, NotInSelectedRun, NeverRun], missing);
    FirstOfCons(BlockedByDependency, [RunCancelled, NotReached, NotInSelectedRun, NeverRun], missing);
  }

  lemma FirstOfCons(x: Cause, rest: seq<Cause>, missing: seq<Cause>)
    ensures FirstOf([x] + rest, missing) == if x in missing then x else FirstOf(rest, missing)
  {
    assert ([x] + rest)[1..] == rest;
  }

  /** A reference names the scenario, the run and the time of the evidence, with the verdict and cause it gives. */
  ghost predicate RefersTo(r: Ref, m: Mapped, e: Evidence) {
    && r.scenarioId == e.scenarioId && r.runId == e.runId && r.startedAt == e.startedAt
    && r.verdict == VerdictFor(m, e).verdict && r.cause == VerdictFor(m, e).cause
  }

  /** There is one reference for every mapped scenario with evidence, in their order. */
  lemma {:induction false} RefsExact(known: Known, mapped: seq<Mapped>)
    ensures var executed := Filter(mapped, m => !NotExecuted(known, m));
            && |Refs(known, mapped)| == |executed|
            && forall i :: 0 <= i < |executed| ==>
                 !NotExecuted(known, executed[i]) && RefersTo(Refs(known, mapped)[i], executed[i], known.evidenceOf(executed[i].scenarioId).value)
  {
    if mapped != [] {
      RefsExact(known, mapped[1..]);
      assert Refs(known, mapped) == RefsOf(known, mapped[0]) + Refs(known, mapped[1..]);
    }
  }

  /** Failed evidence comes first, then verified, inconclusive and stale; within one verdict the order is that of scenario ids. */
  ghost predicate ComesBefore(a: Ref, b: Ref, le: (string, string) -> bool) {
    match a.verdict
    case Fails => b.verdict.Fails? ==> le(a.scenarioId, b.scenarioId)
    case Verifies => !b.verdict.Fails? && (b.verdict.Verifies? ==> le(a.scenarioId, b.scenarioId))
    case IsInconclusive => (b.verdict.IsInconclusive? && le(a.scenarioId, b.scenarioId)) || b.verdict.IsStale?
    case IsStale => b.verdict.IsStale? && le(a.scenarioId, b.scenarioId)
  }

  lemma InOrderMeans(a: Ref, b: Ref, le: (string, string) -> bool)
    ensures RefLe(le)(a, b) <==> ComesBefore(a, b, le)
  {
    assert VerdictOrder(Fails) < VerdictOrder(Verifies) < VerdictOrder(IsInconclusive) < VerdictOrder(IsStale);
    match a.verdict
    case Fails => assert b.verdict != Fails ==> VerdictOrder(a.verdict) < VerdictOrder(b.verdict);
    case Verifies => assert VerdictOrder(a.verdict) < VerdictOrder(b.verdict) <==> b.verdict.IsInconclusive? || b.verdict.IsStale?;
    case IsInconclusive => assert VerdictOrder(a.verdict) < VerdictOrder(b.verdict) <==> b.verdict.IsStale?;
    case IsStale => assert VerdictOrder(b.verdict) <= VerdictOrder(a.verdict);
  }

  ghost predicate FirstThree(some: seq<Ref>, refs: seq<Ref>, le: (string, string) -> bool) {
    exists sorted :: multiset(sorted) == multiset(refs) && some <= sorted && (|some| == 3 || some == sorted) && |some| <= 3
                     && forall i, j :: 0 <= i < j < |sorted| ==> ComesBefore(sorted[i], sorted[j], le)
  }

  /** A classification shows the first three references in that order. */
  lemma EvidenceShown(known: Known, mapped: seq<Mapped>, le: (string, string) -> bool)
    requires TotalPreorder(le)
    ensures FirstThree(ClassificationOf(known, mapped, le).evidence, Refs(known, mapped), le)
  {
    var refs := Refs(known, mapped);
    var sorted := SortBy(refs, RefLe(le));
    RefLeOrders(le);
    SortBySorted(refs, RefLe(le));
    SortByPermutes(refs, RefLe(le));
    forall i, j | 0 <= i < j < |sorted| ensures ComesBefore(sorted[i], sorted[j], le) { InOrderMeans(sorted[i], sorted[j], le); }
    assert multiset(sorted) == multiset(refs) && AtMostThree(sorted) <= sorted;
  }

  /** An inconclusive requirement gives the cause of its first inconclusive reference. */
  lemma {:induction false} FirstInconclusiveIs(refs: seq<Ref>, i: nat)
    requires i < |refs| && refs[i].verdict.IsInconclusive? && forall j :: 0 <= j < i ==> !refs[j].verdict.IsInconclusive?
    ensures FirstInconclusive(refs) == refs[i].cause
    decreases |refs|
  {
    if i > 0 { FirstInconclusiveIs(refs[1..], i - 1); }
  }

  ghost predicate Executed(known: Known, m: Mapped, v: Verdict) {
    known.evidenceOf(m.scenarioId).Some? && VerdictFor(m, known.evidenceOf(m.scenarioId).value).verdict == v
  }

  ghost predicate NotExecuted(known: Known, m: Mapped) {
    known.evidenceOf(m.scenarioId).None?
  }

  /** Passed, failed, inconclusive and not executed count the mapped scenarios by their verdicts; stale counts as inconclusive. */
  lemma {:induction false} TallyCounts(known: Known, mapped: seq<Mapped>)
    ensures var t := TallyOf(States(known, mapped));
            && t.passed == |Filter(mapped, m => Executed(known, m, Verifies))|
            && t.failed == |Filter(mapped, m => Executed(known, m, Fails))|
            && t.inconclusive == |Filter(mapped, m => Executed(known, m, IsInconclusive) || Executed(known, m, IsStale))|
            && t.notExecuted == |Filter(mapped, m => NotExecuted(known, m))|
  {
    if mapped != [] {
      TallyCounts(known, mapped[1..]);
      var s, rest := Contribution(known, mapped[0]), States(known, mapped[1..]);
      assert States(known, mapped) == [s] + rest;
      assert multiset([s] + rest) == multiset{s} + multiset(rest);
    }
  }

  /** The tally accounts for every mapped scenario. */
  lemma TallySums(known: Known, mapped: seq<Mapped>, le: (string, string) -> bool)
    ensures var t := ClassificationOf(known, mapped, le).tally; t.passed + t.failed + t.inconclusive + t.notExecuted == |mapped|
  {
    StatesShape(known, mapped);
    StatesAreCounted(States(known, mapped));
  }

  /** Mapping one more scenario to a requirement never lowers its state. */
  lemma NeverLoweredByAScenario(known: Known, mapped: seq<Mapped>, m: Mapped, le: (string, string) -> bool)
    ensures Rank(ClassificationOf(known, mapped, le).state) <= Rank(ClassificationOf(known, mapped + [m], le).state)
  {
    FlatMapAppend(mapped, [m], n => [Contribution(known, n)]);
    JoinNeverLowered(States(known, mapped), States(known, [m]));
  }

  lemma {:induction false} FirstOfIgnoresOrder(order: seq<Cause>, a: seq<Cause>, b: seq<Cause>)
    requires forall x :: x in a <==> x in b
    ensures FirstOf(order, a) == FirstOf(order, b)
  {
    if order != [] { FirstOfIgnoresOrder(order[1..], a, b); }
  }

  lemma RefLeOrders(le: (string, string) -> bool)
    requires TotalPreorder(le)
    ensures TotalPreorder(RefLe(le))
  {
    var cmp := RefLe(le);
    forall x, y ensures cmp(x, y) || cmp(y, x) {
      assert le(x.scenarioId, y.scenarioId) || le(y.scenarioId, x.scenarioId);
    }
    forall x, y, z | cmp(x, y) && cmp(y, z) ensures cmp(x, z) {
      assert le(x.scenarioId, y.scenarioId) && le(y.scenarioId, z.scenarioId) ==> le(x.scenarioId, z.scenarioId);
    }
  }

  /** Evidence is filed under the scenario it belongs to. */
  ghost predicate FiledById(known: Known) {
    forall id :: known.evidenceOf(id).Some? ==> known.evidenceOf(id).value.scenarioId == id
  }

  lemma RefsDoNotTie(known: Known, mapped: seq<Mapped>, le: (string, string) -> bool)
    requires FiledById(known) && Antisymmetric(le)
    requires forall m, n :: m in mapped && n in mapped && m.scenarioId == n.scenarioId ==> m == n
    ensures NoTies(Refs(known, mapped), RefLe(le))
  {
    var refs := Refs(known, mapped);
    forall x, y | x in refs && y in refs && RefLe(le)(x, y) && RefLe(le)(y, x) ensures x == y {
      FlatMapMember(mapped, m => RefsOf(known, m), x);
      FlatMapMember(mapped, m => RefsOf(known, m), y);
      var i :| 0 <= i < |mapped| && x in RefsOf(known, mapped[i]);
      var j :| 0 <= j < |mapped| && y in RefsOf(known, mapped[j]);
      assert x.scenarioId == y.scenarioId;
      assert mapped[i].scenarioId == x.scenarioId && mapped[j].scenarioId == y.scenarioId;
      assert mapped[i] in mapped && mapped[j] in mapped;
    }
  }

  /** The stale evidence of the mapped scenarios gives one reason at most, and one date at most. */
  ghost predicate StaleTextsAgree(known: Known, mapped: seq<Mapped>) {
    AllEqual(StaleTexts(known, mapped, ReasonOf)) && AllEqual(StaleTexts(known, mapped, SinceOf))
  }

  ghost predicate AllEqual(texts: seq<string>) {
    forall x, y :: x in texts && y in texts ==> x == y
  }

  /** Apart from what is said of stale evidence, the classification does not depend on the order of the mapped scenarios. */
  lemma ClassificationIgnoresOrder(known: Known, a: seq<Mapped>, b: seq<Mapped>, le: (string, string) -> bool)
    requires multiset(a) == multiset(b)
    requires FiledById(known) && TotalPreorder(le) && Antisymmetric(le)
    requires forall m, n :: m in a && n in a && m.scenarioId == n.scenarioId ==> m == n
    ensures var c, d := ClassificationOf(known, a, le), ClassificationOf(known, b, le);
            && c.(staleness := NOT_STALE) == d.(staleness := NOT_STALE)
            && (!c.state.Stale? || StaleTextsAgree(known, a) ==> c == d)
  {
    SameStates(known, a, b);
    SameSortedRefs(known, a, b, le);
    SameFirstMissing(known, a, b);
    if StaleTextsAgree(known, a) {
      SameFirstText(known, a, b, ReasonOf);
      SameFirstText(known, a, b, SinceOf);
    }
  }

  lemma SameFirstText(known: Known, a: seq<Mapped>, b: seq<Mapped>, text: Evidence -> Option<string>)
    requires multiset(a) == multiset(b) && AllEqual(StaleTexts(known, a, text))
    ensures First(StaleTexts(known, a, text)) == First(StaleTexts(known, b, text))
  {
    FlatMapPermutation(a, b, m => StaleTextOf(known, m, text));
    FirstOfEqual(StaleTexts(known, a, text), StaleTexts(known, b, text));
  }

  lemma FirstOfEqual(p: seq<string>, q: seq<string>)
    requires multiset(p) == multiset(q) && AllEqual(p)
    ensures First(p) == First(q)
  {
    assert |multiset(p)| == |multiset(q)|;
    if p != [] {
      assert p[0] in p && q[0] in multiset(p);
      assert q[0] in p;
    }
  }

  /** Each text of stale evidence is the first one in some arrangement of the mapped scenarios. */
  lemma TextComesFirst(known: Known, a: seq<Mapped>, text: Evidence -> Option<string>, x: string) returns (b: seq<Mapped>)
    requires x in StaleTexts(known, a, text)
    ensures multiset(b) == multiset(a) && First(StaleTexts(known, b, text)) == Some(x)
  {
    FlatMapMember(a, m => StaleTextOf(known, m, text), x);
    var i :| 0 <= i < |a| && x in StaleTextOf(known, a[i], text);
    var u, v := TakeOut(a, a[i]);
    b := [a[i]] + (u + v);
    assert b[1..] == u + v;
  }

  ghost predicate SameInAnyOrder(known: Known, a: seq<Mapped>, le: (string, string) -> bool) {
    forall b :: multiset(b) == multiset(a) ==> ClassificationOf(known, b, le) == ClassificationOf(known, a, le)
  }

  lemma OneTextInAnyOrder(known: Known, a: seq<Mapped>, le: (string, string) -> bool, text: Evidence -> Option<string>)
    requires SameInAnyOrder(known, a, le) && Join(States(known, a)).Stale? && (text == ReasonOf || text == SinceOf)
    ensures AllEqual(StaleTexts(known, a, text))
  {
    forall x, y | x in StaleTexts(known, a, text) && y in StaleTexts(known, a, text) ensures x == y {
      var b := TextComesFirst(known, a, text, x);
      var c := TextComesFirst(known, a, text, y);
      SameStates(known, a, b);
      SameStates(known, a, c);
      assert ClassificationOf(known, b, le).staleness == ClassificationOf(known, c, le).staleness;
    }
  }

  /** The whole classification is the same for every arrangement exactly when it is not `stale` or all stale evidence says the same. */
  lemma SameInAnyOrderIff(known: Known, a: seq<Mapped>, le: (string, string) -> bool)
    requires FiledById(known) && TotalPreorder(le) && Antisymmetric(le)
    requires forall m, n :: m in a && n in a && m.scenarioId == n.scenarioId ==> m == n
    ensures SameInAnyOrder(known, a, le) <==> !Join(States(known, a)).Stale? || StaleTextsAgree(known, a)
  {
    if SameInAnyOrder(known, a, le) && Join(States(known, a)).Stale? {
      OneTextInAnyOrder(known, a, le, ReasonOf);
      OneTextInAnyOrder(known, a, le, SinceOf);
    }
    if !Join(States(known, a)).Stale? || StaleTextsAgree(known, a) {
      forall b | multiset(b) == multiset(a) ensures ClassificationOf(known, b, le) == ClassificationOf(known, a, le) {
        ClassificationIgnoresOrder(known, a, b, le);
      }
    }
  }

  lemma SameStates(known: Known, a: seq<Mapped>, b: seq<Mapped>)
    requires multiset(a) == multiset(b)
    ensures Join(States(known, a)) == Join(States(known, b)) && TallyOf(States(known, a)) == TallyOf(States(known, b))
  {
    FlatMapPermutation(a, b, m => [Contribution(known, m)]);
    JoinIgnoresOrder(States(known, a), States(known, b));
  }

  lemma SameSortedRefs(known: Known, a: seq<Mapped>, b: seq<Mapped>, le: (string, string) -> bool)
    requires multiset(a) == multiset(b)
    requires FiledById(known) && TotalPreorder(le) && Antisymmetric(le)
    requires forall m, n :: m in a && n in a && m.scenarioId == n.scenarioId ==> m == n
    ensures SortBy(Refs(known, a), RefLe(le)) == SortBy(Refs(known, b), RefLe(le))
  {
    FlatMapPermutation(a, b, m => RefsOf(known, m));
    RefLeOrders(le);
    RefsDoNotTie(known, a, le);
    SortByPermutation(Refs(known, a), Refs(known, b), RefLe(le));
  }

  lemma SameFirstMissing(known: Known, a: seq<Mapped>, b: seq<Mapped>)
    requires multiset(a) == multiset(b)
    ensures FirstOf(MISSING_CAUSE_ORDER, MissingCauses(known, a)) == FirstOf(MISSING_CAUSE_ORDER, MissingCauses(known, b))
  {
    FlatMapPermutation(a, b, m => MissingOf(known, m));
    SameMissing(MissingCauses(known, a), MissingCauses(known, b));
    FirstOfIgnoresOrder(MISSING_CAUSE_ORDER, MissingCauses(known, a), MissingCauses(known, b));
  }

  lemma SameMissing(a: seq<Cause>, b: seq<Cause>)
    requires multiset(a) == multiset(b)
    ensures forall x :: x in a <==> x in b
  {
    forall x ensures x in a <==> x in b { assert x in multiset(a) <==> x in multiset(b); }
  }

  // ---- Stale evidence with different reasons ----

  function StaleEvidence(id: string): Evidence {
    Evidence(id, "run", "2026-01-01", false, false, false, [], true, Some(id), None)
  }

  /** Every scenario has stale evidence, each for a reason of its own. */
  const ALL_STALE := Known((id: string) => Some(StaleEvidence(id)), (id: string) => NeverRun)

  lemma TwoStale(a: string, b: string)
    ensures var mapped := [Mapped(a, AnyScope, None), Mapped(b, AnyScope, None)];
            Join(States(ALL_STALE, mapped)).Stale? && First(StaleTexts(ALL_STALE, mapped, ReasonOf)) == Some(a)
  {
    var mapped := [Mapped(a, AnyScope, None), Mapped(b, AnyScope, None)];
    FlatMapTwo(mapped[0], mapped[1], m => [Contribution(ALL_STALE, m)]);
    FlatMapTwo(mapped[0], mapped[1], m => StaleTextOf(ALL_STALE, m, ReasonOf));
    assert States(ALL_STALE, mapped) == [Stale, Stale];
    assert [Stale, Stale][1..] == [Stale] && Join([Stale]) == Stale;
    assert StaleTexts(ALL_STALE, mapped, ReasonOf) == [a, b];
  }

  /** The same two scenarios the other way round give another stale reason. */
  lemma StaleReasonFollowsOrder(le: (string, string) -> bool)
    ensures var m, n := Mapped("contract", AnyScope, None), Mapped("request", AnyScope, None);
            && ClassificationOf(ALL_STALE, [m, n], le).staleness.reason == Some("contract")
            && ClassificationOf(ALL_STALE, [n, m], le).staleness.reason == Some("request")
  {
    TwoStale("contract", "request");
    TwoStale("request", "contract");
  }
}
