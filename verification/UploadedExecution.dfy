/** The executor of uploaded collections (backend/src/externalCollections/runUploadedCollectionExecution.ts). */
module UploadedExecution {
  import opened RunExecution
  import opened Sequences

  datatype Request = Request(id: string, name: string, verb: string)

  datatype Result = Result(itemId: string, requestName: string, requestMethod: string, verdict: Verdict)

  /** `run(i, request, env)` covers running one request and storing the variables its scripts leave behind. */
  datatype Surroundings = Surroundings(
    variableValues: Environment, pauses: bool, run: (nat, Request, Environment) -> Attempt,
    cancelAtTurn: nat -> bool, cancelAfterPause: nat -> bool)
  {
    predicate CancelledAt(i: nat) {
      cancelAtTurn(i) || (i > 0 && pauses && cancelAfterPause(i))
    }
  }

  function ById(all: seq<Request>, id: string): seq<Request> {
    if all == [] then []
    else if all[|all| - 1].id == id then [all[|all| - 1]]
    else ById(all[..|all| - 1], id)
  }

  /** The document order, or the chosen ids in the chosen order. */
  function RunOrder(all: seq<Request>, orderedItemIds: Option<seq<string>>): seq<Request> {
    if orderedItemIds.None? then all else Flatten(Map(orderedItemIds.value, (id: string) => ById(all, id)))
  }

  /** The first `n` turns, each on the variables the turn before left; `None` as soon as one throws. */
  function Turns(s: Surroundings, order: seq<Request>, n: nat): Option<(seq<Outcome>, Environment)>
    requires n <= |order|
  {
    if n == 0 then Some(([], s.variableValues))
    else
      var before := Turns(s, order, n - 1);
      if before.None? then None
      else
        var attempt := s.run(n - 1, order[n - 1], before.value.1);
        if attempt.Threw? then None else Some((before.value.0 + [attempt.outcome], attempt.environment))
  }

  function ResultOf(request: Request, verdict: Verdict): Result {
    Result(request.id, request.name, request.verb, verdict)
  }

  /** One verdict per request: the outcomes reached, then one reason for all the rest. */
  function Verdicts(outcomes: seq<Outcome>, n: nat, reason: Reason): seq<Verdict>
    requires |outcomes| <= n
  {
    seq(n, i requires 0 <= i < n => if i < |outcomes| then Attempted(outcomes[i]) else NotAttempted(reason, []))
  }

  function Results(order: seq<Request>, verdicts: seq<Verdict>): seq<Result>
    requires |verdicts| <= |order|
  {
    seq(|verdicts|, i requires 0 <= i < |verdicts| => ResultOf(order[i], verdicts[i]))
  }

  class UploadedRun {
    var results: seq<Result>
    var status: Option<Status>

    constructor ()
      ensures results == [] && status == None
    {
      results, status := [], None;
    }

    method AppendNotAttempted(items: seq<Request>, reason: Reason)
      modifies this`results
      ensures |results| == |old(results)| + |items| && results[..|old(results)|] == old(results)
      ensures forall i :: 0 <= i < |items| ==> results[|old(results)| + i] == ResultOf(items[i], NotAttempted(reason, []))
    {
      for k := 0 to |items|
        invariant |results| == |old(results)| + k && results[..|old(results)|] == old(results)
        invariant forall i :: 0 <= i < k ==> results[|old(results)| + i] == ResultOf(items[i], NotAttempted(reason, []))
      {
        results := results + [ResultOf(items[k], NotAttempted(reason, []))];
      }
    }

    method TakeTurns(s: Surroundings, order: seq<Request>) returns (ending: Ending, ghost outcomes: seq<Outcome>)
      requires results == []
      modifies this`results
      ensures |outcomes| == |results| <= |order|
      ensures Turns(s, order, |outcomes|).Some? && Turns(s, order, |outcomes|).value.0 == outcomes
      ensures forall i :: 0 <= i < |outcomes| ==> results[i] == ResultOf(order[i], Attempted(outcomes[i])) && !s.CancelledAt(i)
      ensures match ending
              case RanOut => |outcomes| == |order|
              case WasCancelled => |outcomes| < |order| && s.CancelledAt(|outcomes|)
              case Crashed => |outcomes| < |order| && !s.CancelledAt(|outcomes|) && Turns(s, order, |outcomes| + 1).None?
    {
      outcomes := [];
      var environmentRecord, index := s.variableValues, 0;
      while index < |order|
        invariant index == |outcomes| == |results| <= |order|
        invariant Turns(s, order, index) == Some((outcomes, environmentRecord))
        invariant forall i :: 0 <= i < index ==> results[i] == ResultOf(order[i], Attempted(outcomes[i])) && !s.CancelledAt(i)
      {
        if s.cancelAtTurn(index) {
          return WasCancelled, outcomes;
        }
        if index > 0 && s.pauses {
          if s.cancelAfterPause(index) {
            return WasCancelled, outcomes;
          }
        }
        var attempt := s.run(index, order[index], environmentRecord);
        if attempt.Threw? {
          return Crashed, outcomes;
        }
        environmentRecord := attempt.environment;
        results := results + [ResultOf(order[index], Attempted(attempt.outcome))];
        outcomes := outcomes + [attempt.outcome];
        index := index + 1;
      }
      return RanOut, outcomes;
    }

    /** On every path the run settles with exactly one result for every request, in the run's order. */
    method Run(s: Surroundings, all: seq<Request>, orderedItemIds: Option<seq<string>>) returns (ghost ending: Ending, ghost outcomes: seq<Outcome>)
      requires results == []
      modifies this
      ensures var order := RunOrder(all, orderedItemIds);
              && |outcomes| <= |order| && Turns(s, order, |outcomes|).Some? && Turns(s, order, |outcomes|).value.0 == outcomes
              && results == Results(order, Verdicts(outcomes, |order|, if ending.WasCancelled? then Cancelled else RunEndedBeforeReached))
              && match ending
                 case RanOut => |outcomes| == |order|
                 case WasCancelled => |outcomes| < |order| && s.CancelledAt(|outcomes|)
                 case Crashed => |outcomes| < |order| && !s.CancelledAt(|outcomes|) && Turns(s, order, |outcomes| + 1).None?
      ensures forall i :: 0 <= i < |outcomes| ==> !s.CancelledAt(i)
      ensures status == Some(if ending.WasCancelled? then SettledCancelled else SettledCompleted)
    {
      var order := RunOrder(all, orderedItemIds);
      var how;
      how, outcomes := TakeTurns(s, order);
      ending := how;
      AppendRest(order, how, outcomes);
      status := Some(if how.WasCancelled? then SettledCancelled else SettledCompleted);
    }

    method AppendRest(order: seq<Request>, ending: Ending, ghost outcomes: seq<Outcome>)
      requires |outcomes| == |results| <= |order| && (ending.RanOut? ==> |outcomes| == |order|)
      requires forall i :: 0 <= i < |outcomes| ==> results[i] == ResultOf(order[i], Attempted(outcomes[i]))
      modifies this`results
      ensures results == Results(order, Verdicts(outcomes, |order|, if ending.WasCancelled? then Cancelled else RunEndedBeforeReached))
    {
      ghost var n := |results|;
      if !ending.RanOut? {
        AppendNotAttempted(order[|results|..], if ending.WasCancelled? then Cancelled else RunEndedBeforeReached);
      }
      ghost var verdicts := Verdicts(outcomes, |order|, if ending.WasCancelled? then Cancelled else RunEndedBeforeReached);
      forall i | 0 <= i < |results| ensures results[i] == Results(order, verdicts)[i] {
        if i < n {
          assert results[i] == results[..n][i];
        } else {
          assert results[i] == results[n + (i - n)] && order[n..][i - n] == order[i];
        }
      }
    }
  }

  function ItemIdOf(r: Result): string {
    r.itemId
  }

  function IdOf(r: Request): string {
    r.id
  }

  /** One result per request, in order and under its own name; nothing is attempted after the first request that was not. */
  lemma OneResultPerRequest(order: seq<Request>, outcomes: seq<Outcome>, reason: Reason)
    requires |outcomes| <= |order|
    ensures var results := Results(order, Verdicts(outcomes, |order|, reason));
            && Map(results, ItemIdOf) == Map(order, IdOf)
            && forall i, j :: 0 <= i < j < |results| && results[i].verdict.NotAttempted? ==> results[j].verdict == results[i].verdict
  {
    SameIds(order, Verdicts(outcomes, |order|, reason));
    var results := Results(order, Verdicts(outcomes, |order|, reason));
    forall i, j | 0 <= i < j < |results| && results[i].verdict.NotAttempted? ensures results[j].verdict == results[i].verdict {
      ResultTells(order, outcomes, reason, i);
      ResultTells(order, outcomes, reason, j);
    }
  }

  lemma SameIds(order: seq<Request>, verdicts: seq<Verdict>)
    requires |verdicts| == |order|
    ensures Map(Results(order, verdicts), ItemIdOf) == Map(order, IdOf)
  {
    var results := Results(order, verdicts);
    forall i | 0 <= i < |order| ensures Map(results, ItemIdOf)[i] == Map(order, IdOf)[i] {
      assert results[i] == ResultOf(order[i], verdicts[i]);
    }
  }

  /** What is recorded of each request: its id, name and method, and what became of it. */
  lemma ResultTells(order: seq<Request>, outcomes: seq<Outcome>, reason: Reason, i: nat)
    requires |outcomes| <= |order| && i < |order|
    ensures var results := Results(order, Verdicts(outcomes, |order|, reason));
            && |results| == |order|
            && results[i].itemId == order[i].id && results[i].requestName == order[i].name && results[i].requestMethod == order[i].verb
            && results[i].verdict == if i < |outcomes| then Attempted(outcomes[i]) else NotAttempted(reason, [])
  {
  }

  /** Each request is sent once, in its turn, on the variables the request before it left behind. */
  ghost predicate SentInTurn(s: Surroundings, order: seq<Request>, outcomes: seq<Outcome>, environments: seq<Environment>) {
    && |environments| == |outcomes| + 1 && |outcomes| <= |order| && environments[0] == s.variableValues
    && forall i :: 0 <= i < |outcomes| ==> s.run(i, order[i], environments[i]) == Ran(outcomes[i], environments[i + 1])
  }

  lemma {:induction false} TurnsAreSent(s: Surroundings, order: seq<Request>, n: nat) returns (environments: seq<Environment>)
    requires n <= |order| && Turns(s, order, n).Some?
    ensures SentInTurn(s, order, Turns(s, order, n).value.0, environments)
    ensures |Turns(s, order, n).value.0| == n && environments[n] == Turns(s, order, n).value.1
  {
    if n == 0 {
      environments := [s.variableValues];
    } else {
      var before := TurnsAreSent(s, order, n - 1);
      environments := before + [Turns(s, order, n).value.1];
    }
  }

  /** The turns stop at a request exactly when running it throws. */
  lemma TurnThrows(s: Surroundings, order: seq<Request>, n: nat)
    requires n < |order| && Turns(s, order, n).Some?
    ensures Turns(s, order, n + 1).None? <==> s.run(n, order[n], Turns(s, order, n).value.1).Threw?
  {
  }

  ghost predicate LastWithId(all: seq<Request>, r: Request, id: string) {
    exists i :: 0 <= i < |all| && all[i] == r && r.id == id && forall j :: i < j < |all| ==> all[j].id != id
  }

  lemma {:induction false} ByIdIsLast(all: seq<Request>, id: string)
    ensures ById(all, id) == [] <==> forall r :: r in all ==> r.id != id
    ensures ById(all, id) != [] ==> |ById(all, id)| == 1 && LastWithId(all, ById(all, id)[0], id)
  {
    if all != [] {
      var n := |all| - 1;
      ByIdIsLast(all[..n], id);
      assert all == all[..n] + [all[n]];
      if all[n].id != id && ById(all[..n], id) != [] {
        var r := ById(all[..n], id)[0];
        var i :| 0 <= i < n && all[..n][i] == r && forall j :: i < j < n ==> all[..n][j].id != id;
        assert all[i] == r;
      }
    }
  }

  ghost predicate Known(all: seq<Request>, id: string) {
    exists r :: r in all && r.id == id
  }

  /** A selective run sends, for each chosen id that there is, the request with that id, in the chosen order. */
  lemma {:induction false} RunOrderPicks(all: seq<Request>, ids: seq<string>)
    ensures var order := RunOrder(all, Some(ids));
            && Map(order, IdOf) == Filter(ids, (id: string) => Known(all, id))
            && forall r :: r in order ==> LastWithId(all, r, r.id)
  {
    if ids != [] {
      RunOrderPicks(all, ids[1..]);
      ByIdIsLast(all, ids[0]);
      var first, rest := ById(all, ids[0]), RunOrder(all, Some(ids[1..]));
      var each := (id: string) => ById(all, id);
      assert Map(ids, each)[0] == first && Map(ids, each)[1..] == Map(ids[1..], each);
      assert RunOrder(all, Some(ids)) == first + rest;
      MapAppend(first, rest, IdOf);
      if first == [] {
        assert Map(first, IdOf) + Map(rest, IdOf) == Map(rest, IdOf);
      } else {
        assert first == [first[0]] && first[0] in all && first[0].id == ids[0];
        assert Map(first, IdOf) == [ids[0]];
      }
    }
  }
}
