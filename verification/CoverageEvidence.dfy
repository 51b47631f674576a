/** Which execution result decides each scenario (backend/src/apiCoverage/evidence.ts). */
module CoverageEvidence {
  import opened CoverageClassification
  import opened Sequences
  import opened Ordering

  datatype NotAttemptedReason = DependencyNotMet | Cancelled | RunEndedBeforeReached

  /**
   * One result of a run, already joined: `scenario` is the current scenario it belongs to, if any, `reason` the recorded
   * reason of a result that was not attempted, and `infrastructure` marks a token request of the generated collection.
   */
  datatype RunResult = RunResult(
    scenario: Option<string>, notAttempted: bool, reason: Option<NotAttemptedReason>, infrastructure: bool, evidence: Evidence)

  /** `applies` is false for a guided run of another workflow; `environment` is the environment key. */
  datatype Run = Run(id: string, applies: bool, startedAt: string, environment: string, results: seq<RunResult>)

  datatype Candidate = Candidate(evidence: Evidence, environment: string)

  /** Why a scenario was not attempted in some run. */
  datatype Note = Note(scenarioId: string, cause: Cause, startedAt: string)

  predicate After(a: string, b: string) {
    !CodeUnitLe(a, b)
  }

  // ---- What the runs hold ----

  predicate Selected(run: Run, runId: Option<string>) {
    runId.None? || run.id == runId.value
  }

  predicate IsUnattributed(r: RunResult) {
    !r.notAttempted && r.scenario.None? && !r.infrastructure
  }

  predicate IsInfrastructureFailure(r: RunResult) {
    !r.notAttempted && r.scenario.None? && r.infrastructure && r.evidence.failed
  }

  function CandidateOf(run: Run): RunResult -> seq<Candidate> {
    (r: RunResult) =>
      if r.notAttempted || r.scenario.None? then []
      else [Candidate(r.evidence.(scenarioId := r.scenario.value, runId := run.id), run.environment)]
  }

  function CandidatesOf(runId: Option<string>): Run -> seq<Candidate> {
    (run: Run) => if run.applies && Selected(run, runId) then FlatMap(run.results, CandidateOf(run)) else []
  }

  function SelectedResults(runId: Option<string>): Run -> seq<RunResult> {
    (run: Run) => if run.applies && Selected(run, runId) then run.results else []
  }

  function CauseOfReason(reason: Option<NotAttemptedReason>): Cause {
    match reason
    case Some(DependencyNotMet) => BlockedByDependency
    case Some(Cancelled) => RunCancelled
    case _ => NotReached
  }

  function NoteOf(run: Run): RunResult -> seq<Note> {
    (r: RunResult) =>
      if r.notAttempted && r.scenario.Some? then [Note(r.scenario.value, CauseOfReason(r.reason), run.startedAt)] else []
  }

  function NotesOf(runId: Option<string>): Run -> seq<Note> {
    (run: Run) => if run.applies && Selected(run, runId) then FlatMap(run.results, NoteOf(run)) else []
  }

  function NotedScenario(n: Note): string {
    n.scenarioId
  }

  /** The first of the notes whose run started last. */
  function LatestNote(notes: seq<Note>): Option<Note> {
    if notes == [] then None
    else
      var best, last := LatestNote(notes[..|notes| - 1]), notes[|notes| - 1];
      if best.None? || After(last.startedAt, best.value.startedAt) then Some(last) else best
  }

  ghost predicate NotedAt(notes: seq<Note>, noted: map<string, Note>, s: string) {
    LatestNote(OfKey(notes, NotedScenario, s)) == if s in noted then Some(noted[s]) else None
  }

  /** The map holds the latest note of every scenario that has one. */
  ghost predicate Noted(notes: seq<Note>, noted: map<string, Note>) {
    forall s {:trigger NotedAt(notes, noted, s)} :: NotedAt(notes, noted, s)
  }

  /** `noteNotAttempted` */
  function NoteNotAttempted(noted: map<string, Note>, n: Note): map<string, Note> {
    if n.scenarioId !in noted || After(n.startedAt, noted[n.scenarioId].startedAt) then noted[n.scenarioId := n] else noted
  }

  lemma NotePush(notes: seq<Note>, noted: map<string, Note>, n: Note)
    requires Noted(notes, noted)
    ensures Noted(notes + [n], NoteNotAttempted(noted, n))
  {
    var longer, next := notes + [n], NoteNotAttempted(noted, n);
    assert longer[..|notes| + 1] == longer && longer[..|notes|] == notes;
    forall t ensures NotedAt(longer, next, t) {
      assert NotedAt(notes, noted, t);
      OfKeyPush(longer, |notes|, NotedScenario, t);
      var before := OfKey(notes, NotedScenario, t);
      if t == n.scenarioId {
        assert (before + [n])[..|before|] == before;
      } else {
        assert before + [] == before;
      }
    }
  }

  // ---- Collecting ----

  ghost predicate CollectedFrom(
    run: Run, i: nat, notes: seq<Note>, candidates: seq<Candidate>, unattributed: nat, failures: nat, noted: map<string, Note>)
    requires i <= |run.results|
  {
    && candidates == FlatMap(run.results[..i], CandidateOf(run))
    && unattributed == |Filter(run.results[..i], IsUnattributed)|
    && failures == |Filter(run.results[..i], IsInfrastructureFailure)|
    && Noted(notes + FlatMap(run.results[..i], NoteOf(run)), noted)
  }

  /** What one more result adds. */
  lemma ResultPush(
    run: Run, i: nat, notes: seq<Note>, candidates: seq<Candidate>, unattributed: nat, failures: nat, noted: map<string, Note>)
    requires i < |run.results| && CollectedFrom(run, i, notes, candidates, unattributed, failures, noted)
    ensures var r := run.results[i];
            CollectedFrom(run, i + 1, notes, candidates + CandidateOf(run)(r),
                          unattributed + (if IsUnattributed(r) then 1 else 0),
                          failures + (if IsInfrastructureFailure(r) then 1 else 0),
                          if NoteOf(run)(r) == [] then noted else NoteNotAttempted(noted, NoteOf(run)(r)[0]))
  {
    var r, before := run.results[i], notes + FlatMap(run.results[..i], NoteOf(run));
    FlatMapPush(run.results, i, CandidateOf(run));
    FlatMapPush(run.results, i, NoteOf(run));
    FilterPush(run.results, i, IsUnattributed);
    FilterPush(run.results, i, IsInfrastructureFailure);
    var own := NoteOf(run)(r);
    assert before + own == notes + (FlatMap(run.results[..i], NoteOf(run)) + own);
    if own == [] {
      assert before + own == before;
    } else {
      assert own == [own[0]];
      NotePush(before, noted, own[0]);
    }
  }

  /** The loop over the results of a selected run; `notes` are those of the runs before. */
  method CollectFromRun(run: Run, noted: map<string, Note>, ghost notes: seq<Note>)
    returns (candidates: seq<Candidate>, unattributed: nat, infrastructureFailures: nat, noted': map<string, Note>)
    requires Noted(notes, noted)
    ensures CollectedFrom(run, |run.results|, notes, candidates, unattributed, infrastructureFailures, noted')
  {
    candidates, unattributed, infrastructureFailures, noted' := [], 0, 0, noted;
    assert notes + [] == notes;
    for i := 0 to |run.results|
      invariant CollectedFrom(run, i, notes, candidates, unattributed, infrastructureFailures, noted')
    {
      var r := run.results[i];
      ResultPush(run, i, notes, candidates, unattributed, infrastructureFailures, noted');
      if r.notAttempted {
        if r.scenario.Some? {
          noted' := NoteNotAttempted(noted', Note(r.scenario.value, CauseOfReason(r.reason), run.startedAt));
        }
        assert candidates + [] == candidates;
        continue;
      }
      if r.scenario.None? {
        if r.infrastructure && r.evidence.failed {
          infrastructureFailures := infrastructureFailures + 1;
        }
        if !r.infrastructure {
          unattributed := unattributed + 1;
        }
        assert candidates + [] == candidates;
        continue;
      }
      candidates := candidates + [Candidate(r.evidence.(scenarioId := r.scenario.value, runId := run.id), run.environment)];
    }
  }

  predicate BelongsTo(r: RunResult, s: string) {
    !r.notAttempted && r.scenario == Some(s)
  }

  ghost predicate HasResultOf(results: seq<RunResult>, s: string) {
    exists r :: r in results && BelongsTo(r, s)
  }

  method ScenariosIn(run: Run) returns (scenarios: set<string>)
    ensures forall s :: s in scenarios <==> HasResultOf(run.results, s)
  {
    scenarios := {};
    for i := 0 to |run.results|
      invariant forall s :: s in scenarios <==> HasResultOf(run.results[..i], s)
    {
      var r := run.results[i];
      assert run.results[..i + 1] == run.results[..i] + [r];
      if !r.notAttempted && r.scenario.Some? {
        assert BelongsTo(r, r.scenario.value);
        scenarios := scenarios + {r.scenario.value};
      }
    }
    assert run.results[..|run.results|] == run.results;
  }

  /** In some run that was not selected the scenario has a result. */
  ghost predicate RanElsewhere(runs: seq<Run>, runId: Option<string>, s: string) {
    exists run :: run in runs && run.applies && !Selected(run, runId) && HasResultOf(run.results, s)
  }

  ghost predicate Collected(
    runs: seq<Run>, runId: Option<string>, candidates: seq<Candidate>, unattributed: nat, failures: nat,
    noted: map<string, Note>, elsewhere: set<string>)
  {
    && candidates == FlatMap(runs, CandidatesOf(runId))
    && unattributed == |Filter(FlatMap(runs, SelectedResults(runId)), IsUnattributed)|
    && failures == |Filter(FlatMap(runs, SelectedResults(runId)), IsInfrastructureFailure)|
    && Noted(FlatMap(runs, NotesOf(runId)), noted)
    && forall s :: s in elsewhere <==> RanElsewhere(runs, runId, s)
  }

  /** What one more selected run adds. */
  lemma SelectedPush(
    runs: seq<Run>, run: Run, runId: Option<string>, candidates: seq<Candidate>, unattributed: nat, failures: nat,
    noted: map<string, Note>, elsewhere: set<string>, more: seq<Candidate>, none: nat, failed: nat, noted': map<string, Note>)
    requires Collected(runs, runId, candidates, unattributed, failures, noted, elsewhere)
    requires run.applies && Selected(run, runId)
    requires CollectedFrom(run, |run.results|, FlatMap(runs, NotesOf(runId)), more, none, failed, noted')
    ensures Collected(runs + [run], runId, candidates + more, unattributed + none, failures + failed, noted', elsewhere)
  {
    assert run.results[..|run.results|] == run.results;
    FlatMapOne(runs, run, CandidatesOf(runId));
    FlatMapOne(runs, run, SelectedResults(runId));
    FlatMapOne(runs, run, NotesOf(runId));
    FilterAppend(FlatMap(runs, SelectedResults(runId)), run.results, IsUnattributed);
    FilterAppend(FlatMap(runs, SelectedResults(runId)), run.results, IsInfrastructureFailure);
    forall s ensures s in elsewhere <==> RanElsewhere(runs + [run], runId, s) { ElsewherePush(runs, run, runId, s); }
  }

  lemma FlatMapOne<U>(runs: seq<Run>, run: Run, f: Run -> seq<U>)
    ensures FlatMap(runs + [run], f) == FlatMap(runs, f) + f(run)
  {
    var longer := runs + [run];
    FlatMapPush(longer, |runs|, f);
    assert longer[..|runs| + 1] == longer && longer[..|runs|] == runs;
  }

  lemma ElsewherePush(runs: seq<Run>, run: Run, runId: Option<string>, s: string)
    ensures RanElsewhere(runs + [run], runId, s) <==>
            RanElsewhere(runs, runId, s) || (run.applies && !Selected(run, runId) && HasResultOf(run.results, s))
  {
    assert forall other :: other in runs + [run] <==> other in runs || other == run;
  }

  lemma OtherPush(
    runs: seq<Run>, run: Run, runId: Option<string>, candidates: seq<Candidate>, unattributed: nat, failures: nat,
    noted: map<string, Note>, elsewhere: set<string>, scenarios: set<string>)
    requires Collected(runs, runId, candidates, unattributed, failures, noted, elsewhere)
    requires !run.applies || !Selected(run, runId)
    requires forall s :: s in scenarios <==> run.applies && HasResultOf(run.results, s)
    ensures Collected(runs + [run], runId, candidates, unattributed, failures, noted, elsewhere + scenarios)
  {
    FlatMapOne(runs, run, CandidatesOf(runId));
    FlatMapOne(runs, run, SelectedResults(runId));
    FlatMapOne(runs, run, NotesOf(runId));
    assert candidates + [] == candidates;
    assert FlatMap(runs, SelectedResults(runId)) + [] == FlatMap(runs, SelectedResults(runId));
    assert FlatMap(runs, NotesOf(runId)) + [] == FlatMap(runs, NotesOf(runId));
    forall s ensures s in elsewhere + scenarios <==> RanElsewhere(runs + [run], runId, s) { ElsewherePush(runs, run, runId, s); }
  }

  /** The loops over runs: candidates, counts, the reasons recorded for what was not attempted, and what ran elsewhere. */
  method CollectCandidates(runs: seq<Run>, runId: Option<string>)
    returns (candidates: seq<Candidate>, unattributed: nat, infrastructureFailures: nat, notAttempted: map<string, Note>, elsewhere: set<string>)
    ensures Collected(runs, runId, candidates, unattributed, infrastructureFailures, notAttempted, elsewhere)
  {
    candidates, unattributed, infrastructureFailures, notAttempted, elsewhere := [], 0, 0, map[], {};
    forall s ensures NotedAt([], notAttempted, s) { assert OfKey<Note, string>([], NotedScenario, s) == []; }
    for i := 0 to |runs|
      invariant Collected(runs[..i], runId, candidates, unattributed, infrastructureFailures, notAttempted, elsewhere)
    {
      var run := runs[i];
      assert runs[..i + 1] == runs[..i] + [run];
      if run.applies && Selected(run, runId) {
        var more, none, failed, noted := CollectFromRun(run, notAttempted, FlatMap(runs[..i], NotesOf(runId)));
        SelectedPush(runs[..i], run, runId, candidates, unattributed, infrastructureFailures, notAttempted, elsewhere,
                     more, none, failed, noted);
        candidates, unattributed := candidates + more, unattributed + none;
        infrastructureFailures, notAttempted := infrastructureFailures + failed, noted;
      } else {
        var scenarios := {};
        if run.applies {
          scenarios := ScenariosIn(run);
        }
        OtherPush(runs[..i], run, runId, candidates, unattributed, infrastructureFailures, notAttempted, elsewhere, scenarios);
        elsewhere := elsewhere + scenarios;
      }
    }
    assert runs[..|runs|] == runs;
  }

  // ---- What is collected, said of the runs ----

  /** The run is looked at: it belongs to the workflow, and it is the selected one when one is selected. */
  predicate Counted(run: Run, runId: Option<string>) {
    run.applies && (runId == None || runId == Some(run.id))
  }

  /** The result of the run establishes this about a current scenario. */
  predicate Yields(run: Run, r: RunResult, c: Candidate) {
    && !r.notAttempted && r.scenario == Some(c.evidence.scenarioId)
    && c.evidence.runId == run.id && c.environment == run.environment
    && c.evidence == r.evidence.(scenarioId := c.evidence.scenarioId, runId := c.evidence.runId)
  }

  ghost predicate YieldInRun(run: Run, c: Candidate) {
    exists r :: r in run.results && Yields(run, r, c)
  }

  lemma YieldOfRun(run: Run, runId: Option<string>, c: Candidate)
    ensures c in CandidatesOf(runId)(run) <==> Counted(run, runId) && YieldInRun(run, c)
  {
    FlatMapMember(run.results, CandidateOf(run), c);
    forall r ensures c in CandidateOf(run)(r) <==> Yields(run, r, c) { YieldOfResult(run, r, c); }
    if r :| r in run.results && Yields(run, r, c) {
      var j :| 0 <= j < |run.results| && run.results[j] == r;
      assert c in CandidateOf(run)(run.results[j]);
    }
    if j :| 0 <= j < |run.results| && c in CandidateOf(run)(run.results[j]) {
      assert run.results[j] in run.results;
    }
  }

  lemma YieldOfResult(run: Run, r: RunResult, c: Candidate)
    ensures c in CandidateOf(run)(r) <==> Yields(run, r, c)
  {
  }

  ghost predicate SomeYields(runs: seq<Run>, runId: Option<string>, c: Candidate) {
    exists run :: run in runs && Counted(run, runId) && YieldInRun(run, c)
  }

  /** The candidates are exactly what the results of the runs looked at establish. */
  lemma CandidatesExact(runs: seq<Run>, runId: Option<string>, c: Candidate)
    ensures c in FlatMap(runs, CandidatesOf(runId)) <==> SomeYields(runs, runId, c)
  {
    FlatMapMember(runs, CandidatesOf(runId), c);
    if i :| 0 <= i < |runs| && c in CandidatesOf(runId)(runs[i]) {
      YieldOfRun(runs[i], runId, c);
      assert runs[i] in runs;
    }
    if run :| run in runs && Counted(run, runId) && YieldInRun(run, c) {
      YieldOfRun(run, runId, c);
      var i :| 0 <= i < |runs| && runs[i] == run;
    }
  }

  /** The result was not attempted, and this is why. */
  predicate Explains(run: Run, r: RunResult, n: Note) {
    && r.notAttempted && r.scenario == Some(n.scenarioId) && n.startedAt == run.startedAt
    && (r.reason == Some(DependencyNotMet) ==> n.cause == BlockedByDependency)
    && (r.reason == Some(Cancelled) ==> n.cause == RunCancelled)
    && (r.reason == Some(RunEndedBeforeReached) || r.reason == None ==> n.cause == NotReached)
  }

  ghost predicate ReasonInRun(run: Run, n: Note) {
    exists r :: r in run.results && Explains(run, r, n)
  }

  lemma ReasonOfRun(run: Run, runId: Option<string>, n: Note)
    ensures n in NotesOf(runId)(run) <==> Counted(run, runId) && ReasonInRun(run, n)
  {
    FlatMapMember(run.results, NoteOf(run), n);
    forall r ensures n in NoteOf(run)(r) <==> Explains(run, r, n) { ReasonOfResult(run, r, n); }
    if r :| r in run.results && Explains(run, r, n) {
      var j :| 0 <= j < |run.results| && run.results[j] == r;
      assert n in NoteOf(run)(run.results[j]);
    }
    if j :| 0 <= j < |run.results| && n in NoteOf(run)(run.results[j]) {
      assert run.results[j] in run.results;
    }
  }

  lemma ReasonOfResult(run: Run, r: RunResult, n: Note)
    ensures n in NoteOf(run)(r) <==> Explains(run, r, n)
  {
  }

  ghost predicate SomeExplains(runs: seq<Run>, runId: Option<string>, n: Note) {
    exists run :: run in runs && Counted(run, runId) && ReasonInRun(run, n)
  }

  /** The reasons noted are exactly those the results of the runs looked at give. */
  lemma NotesExact(runs: seq<Run>, runId: Option<string>, n: Note)
    ensures n in FlatMap(runs, NotesOf(runId)) <==> SomeExplains(runs, runId, n)
  {
    FlatMapMember(runs, NotesOf(runId), n);
    if i :| 0 <= i < |runs| && n in NotesOf(runId)(runs[i]) {
      ReasonOfRun(runs[i], runId, n);
      assert runs[i] in runs;
    }
    if run :| run in runs && Counted(run, runId) && ReasonInRun(run, n) {
      ReasonOfRun(run, runId, n);
      var i :| 0 <= i < |runs| && runs[i] == run;
    }
  }

  /** Executed results without a current scenario are unattributed, except token requests; of those the failed ones are counted. */
  lemma CountsExact(runs: seq<Run>, runId: Option<string>)
    ensures var results := FlatMap(runs, (run: Run) => if Counted(run, runId) then run.results else []);
            && |Filter(FlatMap(runs, SelectedResults(runId)), IsUnattributed)|
            == |Filter(results, (r: RunResult) => !r.notAttempted && r.scenario == None && !r.infrastructure)|
            && |Filter(FlatMap(runs, SelectedResults(runId)), IsInfrastructureFailure)|
            == |Filter(results, (r: RunResult) => !r.notAttempted && r.scenario == None && r.infrastructure && r.evidence.failed)|
  {
    var counted := (run: Run) => if Counted(run, runId) then run.results else [];
    FlatMapSame(runs, SelectedResults(runId), counted);
    FilterSame(FlatMap(runs, counted), IsUnattributed, (r: RunResult) => !r.notAttempted && r.scenario == None && !r.infrastructure);
    FilterSame(FlatMap(runs, counted), IsInfrastructureFailure,
               (r: RunResult) => !r.notAttempted && r.scenario == None && r.infrastructure && r.evidence.failed);
  }

  // ---- Why a scenario has no evidence ----

  /** `missingCauseOf` */
  function MissingCauseOf(runId: Option<string>, notAttempted: map<string, Note>, elsewhere: set<string>): string -> Cause {
    (s: string) =>
      if s in notAttempted then notAttempted[s].cause
      else if runId.Some? && s in elsewhere then NotInSelectedRun
      else NeverRun
  }

  ghost predicate IsLatestNote(n: Note, notes: seq<Note>, s: string) {
    n in notes && NotedScenario(n) == s && forall m :: m in notes && NotedScenario(m) == s ==> CodeUnitLe(m.startedAt, n.startedAt)
  }

  lemma {:induction false} LatestNoteIsLatest(notes: seq<Note>)
    ensures LatestNote(notes).None? <==> notes == []
    ensures notes != [] ==> LatestNote(notes).value in notes
    ensures notes != [] ==> forall m :: m in notes ==> CodeUnitLe(m.startedAt, LatestNote(notes).value.startedAt)
  {
    if notes != [] {
      var init, last, n := notes[..|notes| - 1], notes[|notes| - 1], LatestNote(notes).value;
      LatestNoteIsLatest(init);
      assert notes == init + [last];
      forall m | m in notes ensures CodeUnitLe(m.startedAt, n.startedAt) {
        CodeUnitTotal(m.startedAt, n.startedAt);
        if m in init && n == last && init != [] {
          var best := LatestNote(init).value;
          CodeUnitTotal(last.startedAt, best.startedAt);
          CodeUnitTransitive(m.startedAt, best.startedAt, last.startedAt);
        }
      }
    }
  }

  ghost predicate SomeNote(notes: seq<Note>, s: string) {
    exists n :: n in notes && NotedScenario(n) == s
  }

  lemma NotedIsLatest(notes: seq<Note>, noted: map<string, Note>, s: string)
    requires Noted(notes, noted)
    ensures s in noted <==> SomeNote(notes, s)
    ensures s in noted ==> IsLatestNote(noted[s], notes, s)
  {
    assert NotedAt(notes, noted, s);
    var own := OfKey(notes, NotedScenario, s);
    LatestNoteIsLatest(own);
    HasMember(own);
    assert forall n :: n in own <==> n in notes && NotedScenario(n) == s;
  }

  ghost predicate CauseOfLatest(notes: seq<Note>, s: string, cause: Cause) {
    exists n :: IsLatestNote(n, notes, s) && cause == n.cause
  }

  /**
   * The cause given for a scenario: that of the latest run considered in which it was not attempted; without one,
   * `not-in-selected-run` exactly when a run is selected and another has a result of the scenario, and else `never-run`.
   */
  lemma MissingCauseIsExact(
    runs: seq<Run>, runId: Option<string>, candidates: seq<Candidate>, unattributed: nat, failures: nat,
    notAttempted: map<string, Note>, elsewhere: set<string>, s: string)
    requires Collected(runs, runId, candidates, unattributed, failures, notAttempted, elsewhere)
    ensures var notes, cause := FlatMap(runs, NotesOf(runId)), MissingCauseOf(runId, notAttempted, elsewhere)(s);
            if SomeNote(notes, s) then CauseOfLatest(notes, s, cause)
            else cause == if runId.Some? && RanElsewhere(runs, runId, s) then NotInSelectedRun else NeverRun
  {
    NotedIsLatest(FlatMap(runs, NotesOf(runId)), notAttempted, s);
  }

  // ---- The latest result ----

  predicate IsLater(a: Evidence, b: Evidence) {
    After(a.startedAt, b.startedAt) || (a.startedAt == b.startedAt && After(a.runId, b.runId))
  }

  lemma NotLaterIsTransitive(a: Evidence, b: Evidence, c: Evidence)
    requires !IsLater(a, b) && !IsLater(b, c)
    ensures !IsLater(a, c)
  {
    CodeUnitTotal(a.startedAt, b.startedAt);
    CodeUnitTotal(b.startedAt, c.startedAt);
    CodeUnitTransitive(a.startedAt, b.startedAt, c.startedAt);
    CodeUnitTotal(a.startedAt, c.startedAt);
    if a.startedAt == b.startedAt == c.startedAt { CodeUnitTransitive(a.runId, b.runId, c.runId); }
  }

  lemma NeverBothLater(a: Evidence, b: Evidence)
    ensures !(IsLater(a, b) && IsLater(b, a)) && !IsLater(a, a)
    ensures !IsLater(a, b) && !IsLater(b, a) <==> a.startedAt == b.startedAt && a.runId == b.runId
  {
    CodeUnitTotal(a.startedAt, b.startedAt);
    CodeUnitTotal(a.runId, b.runId);
    CodeUnitTotal(a.startedAt, a.startedAt);
    CodeUnitTotal(a.runId, a.runId);
  }

  /** `a` started no later than `b`, and has no greater run id when both started at one time. */
  predicate UpTo(a: Evidence, b: Evidence) {
    CodeUnitLe(a.startedAt, b.startedAt) && (a.startedAt == b.startedAt ==> CodeUnitLe(a.runId, b.runId))
  }

  lemma NotLaterIsUpTo(a: Evidence, b: Evidence)
    ensures !IsLater(a, b) <==> UpTo(a, b)
  {
    CodeUnitTotal(a.startedAt, b.startedAt);
    CodeUnitTotal(a.runId, b.runId);
  }

  /** `if (!newest || isLater(candidate, newest)) newest = candidate` over a list. */
  function Newest(cs: seq<Candidate>): Option<Candidate> {
    if cs == [] then None
    else
      var best, last := Newest(cs[..|cs| - 1]), cs[|cs| - 1];
      if best.None? || IsLater(last.evidence, best.value.evidence) then Some(last) else best
  }

  method FindNewest(cs: seq<Candidate>) returns (newest: Option<Candidate>)
    ensures newest == Newest(cs)
  {
    newest := None;
    for i := 0 to |cs|
      invariant newest == Newest(cs[..i])
    {
      assert cs[..i + 1][..i] == cs[..i];
      if newest.None? || IsLater(cs[i].evidence, newest.value.evidence) {
        newest := Some(cs[i]);
      }
    }
    assert cs[..|cs|] == cs;
  }

  ghost predicate IsGreatest(c: Candidate, cs: seq<Candidate>) {
    c in cs && forall d :: d in cs ==> UpTo(d.evidence, c.evidence)
  }

  lemma {:induction false} NewestIsGreatest(cs: seq<Candidate>)
    ensures Newest(cs).None? <==> cs == []
    ensures cs != [] ==> IsGreatest(Newest(cs).value, cs)
  {
    if cs != [] {
      var init, last, n := cs[..|cs| - 1], cs[|cs| - 1], Newest(cs).value;
      NewestIsGreatest(init);
      assert cs == init + [last];
      forall d | d in cs ensures UpTo(d.evidence, n.evidence) {
        NotLaterIsUpTo(d.evidence, n.evidence);
        if init != [] { NotLaterIsUpTo(d.evidence, Newest(init).value.evidence); }
        NeverBothLater(d.evidence, n.evidence);
        if d in init && n == last && init != [] {
          var best := Newest(init).value;
          NeverBothLater(last.evidence, best.evidence);
          NotLaterIsTransitive(d.evidence, best.evidence, last.evidence);
        }
      }
    }
  }

  // ---- The choice per scenario ----

  function InEnvironment(environment: string): Candidate -> bool {
    (c: Candidate) => c.environment == environment
  }

  /** In latest-per-scenario mode only the environment of the newest result is combined. */
  function Usable(cs: seq<Candidate>, single: bool): seq<Candidate> {
    if single || Newest(cs).None? then cs else Filter(cs, InEnvironment(Newest(cs).value.environment))
  }

  function ExcludedRuns(cs: seq<Candidate>, single: bool): set<string> {
    if single || Newest(cs).None? then {}
    else set c | c in cs && c.environment != Newest(cs).value.environment :: c.evidence.runId
  }

  function ScenarioOf(c: Candidate): string {
    c.evidence.scenarioId
  }

  function LatestFor(cs: seq<Candidate>, scenarioId: string): Option<Candidate> {
    Newest(OfKey(cs, ScenarioOf, scenarioId))
  }

  ghost predicate ChosenAt(cs: seq<Candidate>, byScenario: map<string, Candidate>, s: string) {
    LatestFor(cs, s) == if s in byScenario then Some(byScenario[s]) else None
  }

  /** The map holds the latest candidate of every scenario that has one. */
  ghost predicate Chosen(cs: seq<Candidate>, byScenario: map<string, Candidate>) {
    forall s {:trigger ChosenAt(cs, byScenario, s)} :: ChosenAt(cs, byScenario, s)
  }

  lemma ChoosePush(cs: seq<Candidate>, i: nat, byScenario: map<string, Candidate>)
    requires i < |cs| && Chosen(cs[..i], byScenario)
    ensures var s := ScenarioOf(cs[i]);
            var later := s !in byScenario || IsLater(cs[i].evidence, byScenario[s].evidence);
            Chosen(cs[..i + 1], if later then byScenario[s := cs[i]] else byScenario)
  {
    var s := ScenarioOf(cs[i]);
    var later := s !in byScenario || IsLater(cs[i].evidence, byScenario[s].evidence);
    var next := if later then byScenario[s := cs[i]] else byScenario;
    var longer := cs[..i + 1];
    forall t ensures ChosenAt(longer, next, t) {
      assert ChosenAt(cs[..i], byScenario, t);
      OfKeyPush(cs, i, ScenarioOf, t);
      var before := OfKey(cs[..i], ScenarioOf, t);
      if t == s {
        assert (before + [cs[i]])[..|before|] == before;
      } else {
        assert before + [] == before;
      }
    }
  }

  method ChooseLatest(usable: seq<Candidate>) returns (byScenario: map<string, Candidate>)
    ensures Chosen(usable, byScenario)
  {
    byScenario := map[];
    forall s ensures ChosenAt(usable[..0], byScenario, s) {
      assert OfKey(usable[..0], ScenarioOf, s) == [];
    }
    for i := 0 to |usable|
      invariant Chosen(usable[..i], byScenario)
    {
      ChoosePush(usable, i, byScenario);
      var s := ScenarioOf(usable[i]);
      if s !in byScenario || IsLater(usable[i].evidence, byScenario[s].evidence) {
        byScenario := byScenario[s := usable[i]];
      }
    }
    assert usable[..|usable|] == usable;
  }

  /** Every chosen result is the greatest of its scenario, and every scenario with a usable result has one. */
  lemma ChosenIsGreatest(cs: seq<Candidate>, byScenario: map<string, Candidate>, s: string)
    requires Chosen(cs, byScenario)
    ensures s in byScenario <==> exists c :: c in cs && ScenarioOf(c) == s
    ensures s in byScenario ==> byScenario[s] in cs && ScenarioOf(byScenario[s]) == s
    ensures s in byScenario ==> forall c :: c in cs && ScenarioOf(c) == s ==> UpTo(c.evidence, byScenario[s].evidence)
  {
    assert ChosenAt(cs, byScenario, s);
    var group := OfKey(cs, ScenarioOf, s);
    NewestIsGreatest(group);
    HasMember(group);
    assert forall c :: c in group <==> c in cs && ScenarioOf(c) == s;
  }

  // ---- One environment ----

  /** A run has one environment. */
  ghost predicate OneEnvironmentPerRun(cs: seq<Candidate>) {
    forall c, d :: c in cs && d in cs && c.evidence.runId == d.evidence.runId ==> c.environment == d.environment
  }

  /** Some result no other is later than has this environment. */
  ghost predicate NewestEnvironment(cs: seq<Candidate>, environment: string) {
    exists n :: IsGreatest(n, cs) && n.environment == environment
  }

  /**
   * In latest-per-scenario mode the results of the newest one's environment are used, all of them, and the runs of all
   * other results are excluded; for a selected run everything is used.
   */
  lemma UsableExact(cs: seq<Candidate>, single: bool)
    ensures single || cs == [] ==> Usable(cs, single) == cs && ExcludedRuns(cs, single) == {}
    ensures !single && cs != [] ==>
              exists environment :: NewestEnvironment(cs, environment)
                && Usable(cs, false) == Filter(cs, (c: Candidate) => c.environment == environment)
                && forall id :: id in ExcludedRuns(cs, false) <==> exists c :: c in cs && c.environment != environment && c.evidence.runId == id
  {
    NewestIsGreatest(cs);
    if !single && cs != [] {
      var environment := Newest(cs).value.environment;
      assert NewestEnvironment(cs, environment);
      FilterSame(cs, InEnvironment(environment), (c: Candidate) => c.environment == environment);
    }
  }

  /** In latest-per-scenario mode every chosen result is from the newest result's environment and none is from an excluded run. */
  lemma OneEnvironment(cs: seq<Candidate>, byScenario: map<string, Candidate>, s: string)
    requires Chosen(Usable(cs, false), byScenario) && OneEnvironmentPerRun(cs) && s in byScenario
    ensures Newest(cs).Some? && byScenario[s].environment == Newest(cs).value.environment
    ensures byScenario[s].evidence.runId !in ExcludedRuns(cs, false)
  {
    ChosenIsGreatest(Usable(cs, false), byScenario, s);
    NewestIsGreatest(cs);
    assert byScenario[s] in Usable(cs, false);
  }

  // ---- The order of runs does not matter ----

  ghost predicate SameKey(c: Candidate, d: Candidate) {
    ScenarioOf(c) == ScenarioOf(d) && c.evidence.startedAt == d.evidence.startedAt && c.evidence.runId == d.evidence.runId
  }

  ghost predicate KeysDiffer(cs: seq<Candidate>) {
    forall c, d :: c in cs && d in cs && SameKey(c, d) ==> c == d
  }

  lemma SameNewestKey(a: seq<Candidate>, b: seq<Candidate>)
    requires multiset(a) == multiset(b) && a != []
    ensures Newest(a).Some? && Newest(b).Some? && Newest(a).value in a && Newest(b).value in a
    ensures Newest(a).value.evidence.startedAt == Newest(b).value.evidence.startedAt
    ensures Newest(a).value.evidence.runId == Newest(b).value.evidence.runId
  {
    assert |multiset(a)| == |multiset(b)|;
    NewestIsGreatest(a);
    NewestIsGreatest(b);
    var m, n := Newest(a).value, Newest(b).value;
    assert m in multiset(b) && n in multiset(a);
    assert m in b && n in a;
    NotLaterIsUpTo(m.evidence, n.evidence);
    NotLaterIsUpTo(n.evidence, m.evidence);
    NeverBothLater(m.evidence, n.evidence);
  }

  lemma UsableIgnoresOrder(a: seq<Candidate>, b: seq<Candidate>, single: bool)
    requires multiset(a) == multiset(b) && OneEnvironmentPerRun(a)
    ensures multiset(Usable(a, single)) == multiset(Usable(b, single))
  {
    assert |multiset(a)| == |multiset(b)|;
    if a != [] {
      SameNewestKey(a, b);
      FilterPermutation(a, b, InEnvironment(Newest(a).value.environment));
    }
  }

  /** Which result is chosen for a scenario does not depend on the order of the runs or of their results. */
  lemma ChoiceIgnoresOrder(runs: seq<Run>, others: seq<Run>, runId: Option<string>, s: string)
    requires multiset(runs) == multiset(others)
    requires OneEnvironmentPerRun(FlatMap(runs, CandidatesOf(runId))) && KeysDiffer(FlatMap(runs, CandidatesOf(runId)))
    ensures LatestFor(Usable(FlatMap(runs, CandidatesOf(runId)), runId.Some?), s)
         == LatestFor(Usable(FlatMap(others, CandidatesOf(runId)), runId.Some?), s)
  {
    var a, b := FlatMap(runs, CandidatesOf(runId)), FlatMap(others, CandidatesOf(runId));
    FlatMapPermutation(runs, others, CandidatesOf(runId));
    UsableIgnoresOrder(a, b, runId.Some?);
    LatestIgnoresOrder(Usable(a, runId.Some?), Usable(b, runId.Some?), s);
  }

  lemma LatestIgnoresOrder(a: seq<Candidate>, b: seq<Candidate>, s: string)
    requires multiset(a) == multiset(b) && KeysDiffer(a)
    ensures LatestFor(a, s) == LatestFor(b, s)
  {
    var p, q := OfKey(a, ScenarioOf, s), OfKey(b, ScenarioOf, s);
    FilterPermutation(a, b, HasKey(ScenarioOf, s));
    assert |multiset(p)| == |multiset(q)|;
    if p != [] {
      SameNewestKey(p, q);
      assert Newest(p).value in a && Newest(q).value in a && SameKey(Newest(p).value, Newest(q).value);
    }
  }

  // ---- Counts per run ----

  function RunIdOf(c: Candidate): string {
    c.evidence.runId
  }

  ghost predicate CountAt(chosen: seq<Candidate>, counts: map<string, nat>, r: string) {
    |OfKey(chosen, RunIdOf, r)| == if r in counts then counts[r] else 0
  }

  ghost predicate Counts(chosen: seq<Candidate>, counts: map<string, nat>) {
    forall r {:trigger CountAt(chosen, counts, r)} :: CountAt(chosen, counts, r)
  }

  lemma CountPush(chosen: seq<Candidate>, i: nat, counts: map<string, nat>)
    requires i < |chosen| && Counts(chosen[..i], counts)
    ensures var r := RunIdOf(chosen[i]);
            Counts(chosen[..i + 1], counts[r := (if r in counts then counts[r] else 0) + 1])
  {
    var r := RunIdOf(chosen[i]);
    var next := counts[r := (if r in counts then counts[r] else 0) + 1];
    var longer := chosen[..i + 1];
    forall t ensures CountAt(longer, next, t) {
      assert CountAt(chosen[..i], counts, t);
      OfKeyPush(chosen, i, RunIdOf, t);
    }
  }

  method CountPerRun(chosen: seq<Candidate>) returns (runIds: seq<string>, counts: map<string, nat>)
    ensures Counts(chosen, counts) && runIds == FirstKeys(chosen, RunIdOf)
  {
    runIds, counts := [], map[];
    forall r ensures CountAt(chosen[..0], counts, r) {
      assert OfKey(chosen[..0], RunIdOf, r) == [];
    }
    for i := 0 to |chosen|
      invariant Counts(chosen[..i], counts) && runIds == FirstKeys(chosen[..i], RunIdOf)
    {
      CountPush(chosen, i, counts);
      FirstKeysPush(chosen, i, RunIdOf);
      var r := RunIdOf(chosen[i]);
      runIds := AddKey(runIds, r);
      counts := counts[r := (if r in counts then counts[r] else 0) + 1];
    }
    assert chosen[..|chosen|] == chosen;
  }

  function Total(runIds: seq<string>, counts: map<string, nat>): nat {
    if runIds == [] then 0 else (if runIds[0] in counts then counts[runIds[0]] else 0) + Total(runIds[1..], counts)
  }

  lemma {:induction false} TotalIsSize(chosen: seq<Candidate>, counts: map<string, nat>, runIds: seq<string>)
    requires Counts(chosen, counts)
    ensures Total(runIds, counts) == |Flatten(Map(runIds, r => OfKey(chosen, RunIdOf, r)))|
  {
    if runIds != [] {
      assert CountAt(chosen, counts, runIds[0]);
      TotalIsSize(chosen, counts, runIds[1..]);
    }
  }

  /** In whatever order the runs are listed, their counts add up to the scenarios that have evidence. */
  lemma CountsSum(chosen: seq<Candidate>, counts: map<string, nat>, runIds: seq<string>)
    requires Counts(chosen, counts) && multiset(runIds) == multiset(FirstKeys(chosen, RunIdOf))
    ensures Total(runIds, counts) == |chosen|
  {
    FirstKeysComplete(chosen, RunIdOf);
    DistinctPermutation(FirstKeys(chosen, RunIdOf), runIds);
    forall c | c in chosen ensures RunIdOf(c) in runIds { assert RunIdOf(c) in multiset(runIds); }
    GroupsPartition(chosen, RunIdOf, runIds);
    TotalIsSize(chosen, counts, runIds);
    var groups := Flatten(Map(runIds, r => OfKey(chosen, RunIdOf, r)));
    assert |multiset(groups)| == |multiset(chosen)|;
  }
}
