/** Cutting operations into batches and classifying a run by its batch outcomes (backend/src/ai/requestBatching.ts). */
module RequestBatching {
  import opened Sequences

  // ---- The aggregate outcome ----

  datatype BatchOutcome = Success | Failed(errorCategory: string, errorMessage: string) | NotAttempted

  datatype AggregateClass = AllSucceeded | Partial | TimedOut | Unavailable | InvalidResponse

  datatype Aggregate = Aggregate(
    outcome: AggregateClass, errorCategory: Option<string>,
    successCount: nat, failureCount: nat, notAttemptedCount: nat, totalCount: nat)

  predicate IsSuccess(o: BatchOutcome) {
    o.Success?
  }

  predicate IsFailure(o: BatchOutcome) {
    o.Failed?
  }

  predicate IsNotAttempted(o: BatchOutcome) {
    o.NotAttempted?
  }

  predicate IsTimeout(o: BatchOutcome) {
    o.Failed? && o.errorCategory == "TIMEOUT"
  }

  predicate IsUnavailable(o: BatchOutcome) {
    o.Failed? && (o.errorCategory == "PROVIDER_UNAVAILABLE" || o.errorCategory == "NOT_READY" || o.errorCategory == "LOAD_FAILED")
  }

  function LastCategory(o: BatchOutcome): Option<string> {
    if o.Failed? then Some(o.errorCategory) else None
  }

  function DeriveAggregateOutcome(outcomes: seq<BatchOutcome>): Aggregate {
    var failures := Filter(outcomes, IsFailure);
    var successCount := |Filter(outcomes, IsSuccess)|;
    var notAttemptedCount := |Filter(outcomes, IsNotAttempted)|;
    var last := if failures == [] then None else LastCategory(failures[|failures| - 1]);
    var classified :=
      if successCount == |outcomes| then AllSucceeded
      else if successCount > 0 then Partial
      else if |failures| > 0 && forall f :: f in failures ==> IsTimeout(f) then TimedOut
      else if |failures| > 0 && forall f :: f in failures ==> IsUnavailable(f) then Unavailable
      else InvalidResponse;
    Aggregate(classified, if classified.AllSucceeded? then None else last,
              successCount, |failures| + notAttemptedCount, notAttemptedCount, |outcomes|)
  }

  lemma {:induction false} CountsSplit(outcomes: seq<BatchOutcome>)
    ensures |Filter(outcomes, IsSuccess)| + |Filter(outcomes, IsFailure)| + |Filter(outcomes, IsNotAttempted)| == |outcomes|
  {
    if outcomes != [] { CountsSplit(outcomes[1..]); }
  }

  lemma SomeMember(outcomes: seq<BatchOutcome>, keep: BatchOutcome -> bool)
    ensures |Filter(outcomes, keep)| > 0 <==> exists o :: o in outcomes && keep(o)
  {
    if |Filter(outcomes, keep)| > 0 { assert Filter(outcomes, keep)[0] in Filter(outcomes, keep); }
  }

  /** The counts add up, and success classes say what their names say. */
  lemma CountsAddUp(outcomes: seq<BatchOutcome>)
    ensures var a := DeriveAggregateOutcome(outcomes);
            && a.successCount + a.failureCount == a.totalCount == |outcomes|
            && a.successCount == multiset(outcomes)[Success] && a.notAttemptedCount == multiset(outcomes)[NotAttempted]
            && (a.outcome.AllSucceeded? <==> forall o :: o in outcomes ==> o.Success?)
            && (a.outcome.Partial? <==> (exists o :: o in outcomes && o.Success?) && exists o :: o in outcomes && !o.Success?)
  {
    CountsSplit(outcomes);
    CountsOf(outcomes);
    SomeMember(outcomes, IsSuccess);
    SomeMember(outcomes, IsFailure);
    SomeMember(outcomes, IsNotAttempted);
  }

  lemma {:induction false} CountsOf(outcomes: seq<BatchOutcome>)
    ensures |Filter(outcomes, IsSuccess)| == multiset(outcomes)[Success]
    ensures |Filter(outcomes, IsNotAttempted)| == multiset(outcomes)[NotAttempted]
  {
    if outcomes != [] {
      CountsOf(outcomes[1..]);
      assert outcomes == [outcomes[0]] + outcomes[1..];
    }
  }

  /** The last batch that failed is at position `i`. */
  ghost predicate LastFailure(outcomes: seq<BatchOutcome>, i: nat) {
    i < |outcomes| && outcomes[i].Failed? && forall j :: i < j < |outcomes| ==> !outcomes[j].Failed?
  }

  lemma {:induction false} LastFailureIsLast(outcomes: seq<BatchOutcome>, i: nat)
    requires LastFailure(outcomes, i)
    ensures var failures := Filter(outcomes, IsFailure); failures != [] && failures[|failures| - 1] == outcomes[i]
    decreases |outcomes|
  {
    if i == 0 {
      FilterNone(outcomes[1..], IsFailure);
    } else {
      assert LastFailure(outcomes[1..], i - 1);
      LastFailureIsLast(outcomes[1..], i - 1);
    }
  }

  /** A run that did not succeed reports the category of its last failure, or none when nothing failed. */
  lemma ReportsLastFailure(outcomes: seq<BatchOutcome>)
    ensures forall i: nat :: LastFailure(outcomes, i) ==> DeriveAggregateOutcome(outcomes).errorCategory == Some(outcomes[i].errorCategory)
    ensures (forall o :: o in outcomes ==> !o.Failed?) ==> DeriveAggregateOutcome(outcomes).errorCategory == None
  {
    forall i: nat | LastFailure(outcomes, i) ensures DeriveAggregateOutcome(outcomes).errorCategory == Some(outcomes[i].errorCategory) {
      LastFailureIsLast(outcomes, i);
      CountsSplit(outcomes);
    }
    if forall o :: o in outcomes ==> !o.Failed? { FilterNone(outcomes, IsFailure); }
  }

  /** Something failed, and everything either failed in this way or was not attempted. */
  ghost predicate ClassifiedAs(outcomes: seq<BatchOutcome>, way: BatchOutcome -> bool) {
    (exists o :: o in outcomes && o.Failed?) && forall o :: o in outcomes ==> o.NotAttempted? || (o.Failed? && way(o))
  }

  lemma OnlyFailures(outcomes: seq<BatchOutcome>, way: BatchOutcome -> bool)
    ensures ClassifiedAs(outcomes, way) <==>
            && |Filter(outcomes, IsSuccess)| == 0 && |Filter(outcomes, IsFailure)| > 0
            && forall f :: f in Filter(outcomes, IsFailure) ==> way(f)
  {
    SomeMember(outcomes, IsSuccess);
    SomeMember(outcomes, IsFailure);
    assert forall o :: o in Filter(outcomes, IsFailure) <==> o in outcomes && IsFailure(o);
  }

  /** Something failed, and everything failed with one of these categories or was not attempted. */
  ghost predicate FailedOnlyWith(outcomes: seq<BatchOutcome>, categories: seq<string>) {
    (exists o :: o in outcomes && o.Failed?) && forall o :: o in outcomes ==> o.NotAttempted? || (o.Failed? && o.errorCategory in categories)
  }

  /** A run is classified by its failures: batches that were not attempted do not count. */
  lemma FailureClasses(outcomes: seq<BatchOutcome>)
    ensures DeriveAggregateOutcome(outcomes).outcome.TimedOut? <==> FailedOnlyWith(outcomes, ["TIMEOUT"])
    ensures DeriveAggregateOutcome(outcomes).outcome.Unavailable? <==>
            FailedOnlyWith(outcomes, ["PROVIDER_UNAVAILABLE", "NOT_READY", "LOAD_FAILED"])
  {
    assert ClassifiedAs(outcomes, IsTimeout) <==> FailedOnlyWith(outcomes, ["TIMEOUT"]);
    assert ClassifiedAs(outcomes, IsUnavailable) <==> FailedOnlyWith(outcomes, ["PROVIDER_UNAVAILABLE", "NOT_READY", "LOAD_FAILED"]);
    CountsSplit(outcomes);
    OnlyFailures(outcomes, IsTimeout);
    OnlyFailures(outcomes, IsUnavailable);
    var failures := Filter(outcomes, IsFailure);
    if |failures| > 0 { assert IsTimeout(failures[0]) ==> !IsUnavailable(failures[0]); }
  }

  /** Neither the class nor any count depends on the order of the batches. */
  lemma AggregateIgnoresOrder(a: seq<BatchOutcome>, b: seq<BatchOutcome>)
    requires multiset(a) == multiset(b)
    ensures DeriveAggregateOutcome(a).(errorCategory := None) == DeriveAggregateOutcome(b).(errorCategory := None)
  {
    SameFilterSize(a, b, IsSuccess);
    SameFilterSize(a, b, IsFailure);
    SameFilterSize(a, b, IsNotAttempted);
    assert |multiset(a)| == |multiset(b)|;
  }

  lemma SameFilterSize(a: seq<BatchOutcome>, b: seq<BatchOutcome>, keep: BatchOutcome -> bool)
    requires multiset(a) == multiset(b)
    ensures |Filter(a, keep)| == |Filter(b, keep)| && forall o :: o in Filter(a, keep) <==> o in Filter(b, keep)
  {
    FilterPermutation(a, b, keep);
    assert |multiset(Filter(a, keep))| == |multiset(Filter(b, keep))|;
    forall o ensures o in a <==> o in b { assert o in multiset(a) <==> o in multiset(b); }
  }

  // ---- Splitting ----

  /** Halves `operations` until each part fits; `promptChars` is the length of the prompt built for some operations. */
  function SplitByContextBudget<T>(operations: seq<T>, promptChars: seq<T> -> nat, budgetChars: Option<int>): seq<seq<T>>
    decreases |operations|
  {
    if |operations| == 0 then []
    else if budgetChars.None? || |operations| == 1 then [operations]
    else if promptChars(operations) <= budgetChars.value then [operations]
    else
      var mid := (|operations| + 1) / 2;
      SplitByContextBudget(operations[..mid], promptChars, budgetChars)
      + SplitByContextBudget(operations[mid..], promptChars, budgetChars)
  }

  ghost predicate FitsOrSingle<T(!new)>(batch: seq<T>, promptChars: seq<T> -> nat, budgetChars: Option<int>) {
    batch != [] && (|batch| == 1 || budgetChars.None? || promptChars(batch) <= budgetChars.value)
  }

  lemma {:induction false} SplitKeepsEverything<T(!new)>(operations: seq<T>, promptChars: seq<T> -> nat, budgetChars: Option<int>)
    ensures var batches := SplitByContextBudget(operations, promptChars, budgetChars);
            && Flatten(batches) == operations
            && forall batch :: batch in batches ==> FitsOrSingle(batch, promptChars, budgetChars)
    decreases |operations|
  {
    if |operations| == 0 {
    } else if budgetChars.None? || |operations| == 1 || promptChars(operations) <= budgetChars.value {
      assert [operations][1..] == [];
    } else {
      var mid := (|operations| + 1) / 2;
      SplitKeepsEverything(operations[..mid], promptChars, budgetChars);
      SplitKeepsEverything(operations[mid..], promptChars, budgetChars);
      FlattenAppend(SplitByContextBudget(operations[..mid], promptChars, budgetChars),
                    SplitByContextBudget(operations[mid..], promptChars, budgetChars));
    }
  }

  /** What fits is not cut, and what is cut did not fit. */
  lemma WholeIffFits<T>(operations: seq<T>, promptChars: seq<T> -> nat, budgetChars: Option<int>)
    requires operations != []
    ensures SplitByContextBudget(operations, promptChars, budgetChars) == [operations] <==>
            |operations| == 1 || budgetChars.None? || promptChars(operations) <= budgetChars.value
  {
    if |operations| > 1 && budgetChars.Some? && promptChars(operations) > budgetChars.value {
      var mid := (|operations| + 1) / 2;
      SomeBatch(operations[..mid], promptChars, budgetChars);
      SomeBatch(operations[mid..], promptChars, budgetChars);
    }
  }

  lemma {:induction false} SomeBatch<T>(operations: seq<T>, promptChars: seq<T> -> nat, budgetChars: Option<int>)
    requires operations != []
    ensures |SplitByContextBudget(operations, promptChars, budgetChars)| >= 1
    decreases |operations|
  {
    if |operations| > 1 { SomeBatch(operations[..(|operations| + 1) / 2], promptChars, budgetChars); }
  }

  /** What is cut is cut in the middle, an odd operation staying in front, and each half is cut on its own. */
  lemma CutInHalf<T>(operations: seq<T>, promptChars: seq<T> -> nat, budgetChars: Option<int>, front: seq<T>, back: seq<T>)
    requires |operations| > 1 && budgetChars.Some? && promptChars(operations) > budgetChars.value
    requires operations == front + back && |back| <= |front| <= |back| + 1
    ensures SplitByContextBudget(operations, promptChars, budgetChars)
         == SplitByContextBudget(front, promptChars, budgetChars) + SplitByContextBudget(back, promptChars, budgetChars)
  {
    assert operations[..(|operations| + 1) / 2] == front && operations[(|operations| + 1) / 2..] == back;
  }

  /** The operations in chunks of `w`, the last one possibly shorter. */
  function Chunks<T>(operations: seq<T>, w: nat): seq<seq<T>>
    requires w >= 1
    decreases |operations|
  {
    if operations == [] then []
    else if |operations| <= w then [operations]
    else [operations[..w]] + Chunks(operations[w..], w)
  }

  lemma {:induction false} ChunksExact<T>(operations: seq<T>, w: nat)
    requires w >= 1
    ensures var chunks := Chunks(operations, w);
            && Flatten(chunks) == operations
            && (forall i :: 0 <= i < |chunks| ==> 1 <= |chunks[i]| <= w && (i < |chunks| - 1 ==> |chunks[i]| == w))
    decreases |operations|
  {
    if |operations| > w {
      ChunksExact(operations[w..], w);
      assert operations == operations[..w] + operations[w..];
    } else if operations != [] {
      assert [operations][1..] == [];
    }
  }

  function Cut<T>(promptChars: seq<T> -> nat, budgetChars: Option<int>): seq<T> -> seq<seq<T>> {
    (operations: seq<T>) => SplitByContextBudget(operations, promptChars, budgetChars)
  }

  /** Every chunk of the work bound is cut on its own; without a bound there is one chunk. */
  function BatchesOf<T>(operations: seq<T>, promptChars: seq<T> -> nat, budgetChars: Option<int>, bound: Option<nat>): seq<seq<T>> {
    if bound.None? || bound.value == 0 then SplitByContextBudget(operations, promptChars, budgetChars)
    else FlatMap(Chunks(operations, bound.value), Cut(promptChars, budgetChars))
  }

  /** `None` stands for a bound that is missing or not a finite number. */
  function WorkBound(maxOperationsPerBatch: Option<real>): (bound: Option<nat>)
    ensures bound.None? <==> maxOperationsPerBatch.None? || maxOperationsPerBatch.value < 1.0
    ensures bound.Some? ==> bound.value >= 1 && bound.value as real <= maxOperationsPerBatch.value < (bound.value + 1) as real
  {
    if maxOperationsPerBatch.Some? && maxOperationsPerBatch.value >= 1.0 then Some(maxOperationsPerBatch.value.Floor) else None
  }

  /** Each batch begins and ends in the same chunk of `bound` positions, the first batch beginning at `start`. */
  ghost predicate StaysInChunks<T>(batches: seq<seq<T>>, start: nat, bound: nat)
    requires bound >= 1
  {
    batches == []
    || (batches[0] != [] && start / bound == (start + |batches[0]| - 1) / bound
        && StaysInChunks(batches[1..], start + |batches[0]|, bound))
  }

  ghost predicate GoodBatches<T(!new)>(
    batches: seq<seq<T>>, operations: seq<T>, promptChars: seq<T> -> nat, budgetChars: Option<int>, bound: Option<nat>)
  {
    && Flatten(batches) == operations
    && (forall batch :: batch in batches ==> FitsOrSingle(batch, promptChars, budgetChars))
    && (bound.Some? && bound.value >= 1 ==>
          StaysInChunks(batches, 0, bound.value) && forall batch :: batch in batches ==> |batch| <= bound.value)
  }

  method SplitOperationsIntoBatches<T(!new)>(
    operations: seq<T>, promptChars: seq<T> -> nat, budgetChars: Option<int>, maxOperationsPerBatch: Option<real>)
    returns (batches: seq<seq<T>>)
    ensures GoodBatches(batches, operations, promptChars, budgetChars, WorkBound(maxOperationsPerBatch))
    ensures batches == BatchesOf(operations, promptChars, budgetChars, WorkBound(maxOperationsPerBatch))
  {
    if |operations| == 0 {
      return [];
    }
    var workBound := WorkBound(maxOperationsPerBatch);
    if workBound.None? {
      SplitKeepsEverything(operations, promptChars, budgetChars);
      return SplitByContextBudget(operations, promptChars, budgetChars);
    }
    batches := [];
    var start, w := 0, workBound.value;
    CutFromStart(operations, promptChars, budgetChars, w);
    while start < |operations|
      invariant 0 <= start && (start % w == 0 || start >= |operations|)
      invariant CutUpTo(batches, operations, Least(start, |operations|), promptChars, budgetChars, w)
      decreases |operations| - start
    {
      var end := Least(start + w, |operations|);
      var more := SplitByContextBudget(operations[start..end], promptChars, budgetChars);
      CutStep(batches, operations, start, end, promptChars, budgetChars, w);
      batches := batches + more;
      NextChunk(start, w);
      start := start + w;
    }
    CutToEnd(batches, operations, promptChars, budgetChars, w);
  }

  /** The loop invariant: the batches of the first `n` operations, and those of the rest still to come. */
  ghost predicate CutUpTo<T(!new)>(
    batches: seq<seq<T>>, operations: seq<T>, n: nat, promptChars: seq<T> -> nat, budgetChars: Option<int>, w: nat)
    requires w >= 1 && n <= |operations|
  {
    var cut := Cut(promptChars, budgetChars);
    && GoodBatches(batches, operations[..n], promptChars, budgetChars, Some(w))
    && batches + FlatMap(Chunks(operations[n..], w), cut) == FlatMap(Chunks(operations, w), cut)
  }

  lemma CutFromStart<T(!new)>(operations: seq<T>, promptChars: seq<T> -> nat, budgetChars: Option<int>, w: nat)
    requires w >= 1
    ensures CutUpTo([], operations, 0, promptChars, budgetChars, w)
  {
    assert operations[..0] == [] && operations[0..] == operations;
  }

  lemma CutStep<T(!new)>(
    batches: seq<seq<T>>, operations: seq<T>, start: nat, end: nat, promptChars: seq<T> -> nat, budgetChars: Option<int>, w: nat)
    requires w >= 1 && start < |operations| && start % w == 0 && end == Least(start + w, |operations|)
    requires CutUpTo(batches, operations, start, promptChars, budgetChars, w)
    ensures CutUpTo(batches + SplitByContextBudget(operations[start..end], promptChars, budgetChars), operations, end,
                    promptChars, budgetChars, w)
  {
    AddChunk(batches, operations, start, end, promptChars, budgetChars, w);
    CutChunk(batches, operations, start, end, promptChars, budgetChars, w);
  }

  lemma CutToEnd<T(!new)>(batches: seq<seq<T>>, operations: seq<T>, promptChars: seq<T> -> nat, budgetChars: Option<int>, w: nat)
    requires w >= 1 && CutUpTo(batches, operations, |operations|, promptChars, budgetChars, w)
    ensures GoodBatches(batches, operations, promptChars, budgetChars, Some(w))
    ensures batches == BatchesOf(operations, promptChars, budgetChars, Some(w))
  {
    assert operations[..|operations|] == operations && operations[|operations|..] == [];
    assert batches + [] == batches;
  }

  function Least(a: int, b: int): int {
    if a <= b then a else b
  }

  lemma NextChunk(start: nat, w: nat)
    requires w >= 1 && start % w == 0
    ensures (start + w) % w == 0
  {
    assert start == w * (start / w);
    assert start + w == w * (start / w + 1) + 0;
    Quotient(start + w, start / w + 1, w);
    assert (start + w) / w == start / w + 1;
  }

  lemma Quotient(x: nat, q: nat, w: nat)
    requires w >= 1 && q * w <= x < (q + 1) * w
    ensures x / w == q
  {
    var r := x / w;
    assert x == r * w + x % w;
    assert (r + 1) * w == r * w + w;
  }

  lemma {:induction false} WithinOneChunk<T(!new)>(batches: seq<seq<T>>, start: nat, q: nat, w: nat)
    requires w >= 1 && q * w <= start && start + |Flatten(batches)| <= (q + 1) * w
    requires forall batch :: batch in batches ==> batch != []
    ensures StaysInChunks(batches, start, w)
    ensures forall batch :: batch in batches ==> |batch| <= w
    decreases |batches|
  {
    if batches != [] {
      assert batches[0] in batches;
      Quotient(start, q, w);
      Quotient(start + |batches[0]| - 1, q, w);
      assert (q + 1) * w == q * w + w;
      forall batch | batch in batches[1..] ensures batch != [] { assert batch in batches; }
      WithinOneChunk(batches[1..], start + |batches[0]|, q, w);
    }
  }

  lemma {:induction false} ChunksAppend<T(!new)>(a: seq<seq<T>>, b: seq<seq<T>>, start: nat, w: nat)
    requires w >= 1 && StaysInChunks(a, start, w) && StaysInChunks(b, start + |Flatten(a)|, w)
    ensures StaysInChunks(a + b, start, w)
    decreases |a|
  {
    if a == [] {
      assert a + b == b;
    } else {
      assert (a + b)[1..] == a[1..] + b;
      ChunksAppend(a[1..], b, start + |a[0]|, w);
    }
  }

  lemma AddChunk<T(!new)>(
    batches: seq<seq<T>>, operations: seq<T>, start: nat, end: nat, promptChars: seq<T> -> nat, budgetChars: Option<int>, w: nat)
    requires w >= 1 && start < |operations| && start % w == 0 && end == Least(start + w, |operations|)
    requires GoodBatches(batches, operations[..start], promptChars, budgetChars, Some(w))
    ensures GoodBatches(batches + SplitByContextBudget(operations[start..end], promptChars, budgetChars),
                        operations[..end], promptChars, budgetChars, Some(w))
  {
    var more := SplitByContextBudget(operations[start..end], promptChars, budgetChars);
    SplitKeepsEverything(operations[start..end], promptChars, budgetChars);
    ChunkHolds(more, start, w);
    assert operations[..end] == operations[..start] + operations[start..end];
    JoinBatches(batches, more, operations[..start], operations[start..end], promptChars, budgetChars, w);
  }

  lemma CutChunk<T(!new)>(
    batches: seq<seq<T>>, operations: seq<T>, start: nat, end: nat, promptChars: seq<T> -> nat, budgetChars: Option<int>, w: nat)
    requires w >= 1 && start < |operations| && end == Least(start + w, |operations|)
    ensures batches + FlatMap(Chunks(operations[start..], w), Cut(promptChars, budgetChars)) ==
            batches + SplitByContextBudget(operations[start..end], promptChars, budgetChars)
            + FlatMap(Chunks(operations[end..], w), Cut(promptChars, budgetChars))
  {
    var cut, rest := Cut(promptChars, budgetChars), operations[start..];
    var chunks := Chunks(rest, w);
    if |rest| <= w {
      assert rest == operations[start..end] && operations[end..] == [];
    } else {
      assert rest[..w] == operations[start..end] && rest[w..] == operations[end..];
    }
    assert chunks[1..] == Chunks(operations[end..], w);
    assert FlatMap(chunks, cut) == cut(operations[start..end]) + FlatMap(chunks[1..], cut);
  }

  lemma ChunkHolds<T(!new)>(more: seq<seq<T>>, start: nat, w: nat)
    requires w >= 1 && start % w == 0 && |Flatten(more)| <= w && forall batch :: batch in more ==> batch != []
    ensures StaysInChunks(more, start, w) && forall batch :: batch in more ==> |batch| <= w
  {
    var q := start / w;
    assert start == q * w;
    assert (q + 1) * w == q * w + w;
    WithinOneChunk(more, start, q, w);
  }

  lemma JoinBatches<T(!new)>(
    batches: seq<seq<T>>, more: seq<seq<T>>, done: seq<T>, chunk: seq<T>, promptChars: seq<T> -> nat, budgetChars: Option<int>, w: nat)
    requires w >= 1 && GoodBatches(batches, done, promptChars, budgetChars, Some(w))
    requires Flatten(more) == chunk && StaysInChunks(more, |done|, w)
    requires forall batch :: batch in more ==> FitsOrSingle(batch, promptChars, budgetChars) && |batch| <= w
    ensures GoodBatches(batches + more, done + chunk, promptChars, budgetChars, Some(w))
  {
    FlattenAppend(batches, more);
    ChunksAppend(batches, more, 0, w);
  }
}
