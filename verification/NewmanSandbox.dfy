/**
 * The pending runs of the sandboxed Newman process: who settles them, once, whatever the process does
 * (backend/src/execution/newmanSandbox.ts). Child processes are numbered in the order they are spawned.
 */
module NewmanSandbox {
  import opened Sequences

  datatype Outcome = Resolved(execution: string) | Rejected(message: string)

  datatype Settlement = Settlement(id: nat, outcome: Outcome)

  /** `pending` lists ids in the order they were added; `sentTo` remembers which child each id was sent to. */
  datatype SandboxState = SandboxState(
    child: Option<nat>, spawned: nat, pending: seq<nat>, nextId: nat, sentTo: map<nat, nat>, settled: seq<Settlement>)

  datatype Event =
    | Start
    | Reply(child: nat, id: nat, outcome: Outcome)
    | SendError(id: nat)
    | TimeOut(id: nat)
    | SpawnError(child: nat)
    | Disconnect(child: nat)
    | Close

  const INITIAL := SandboxState(None, 0, [], 1, map[], [])

  /** A child replies to ids it was sent; a timer runs while its run is pending. */
  predicate Enabled(s: SandboxState, e: Event) {
    match e
    case Start => true
    case Reply(child, id, _) => id in s.sentTo && s.sentTo[id] == child
    case SendError(id) => id in s.sentTo
    case TimeOut(id) => id in s.pending
    case SpawnError(child) => child < s.spawned
    case Disconnect(child) => child < s.spawned
    case Close => true
  }

  function Without(ids: seq<nat>, id: nat): seq<nat> {
    if ids == [] then [] else if ids[0] == id then ids[1..] else [ids[0]] + Without(ids[1..], id)
  }

  function Settle(s: SandboxState, id: nat, outcome: Outcome): SandboxState {
    if id in s.pending then s.(pending := Without(s.pending, id), settled := s.settled + [Settlement(id, outcome)]) else s
  }

  function Rejections(ids: seq<nat>, reason: string): seq<Settlement> {
    seq(|ids|, i requires 0 <= i < |ids| => Settlement(ids[i], Rejected(reason)))
  }

  /** The child is gone and everything pending is rejected, in order. */
  function Discard(s: SandboxState, reason: string): SandboxState {
    s.(child := None, pending := [], settled := s.settled + Rejections(s.pending, reason))
  }

  function WithChild(s: SandboxState): SandboxState {
    if s.child.Some? then s else s.(child := Some(s.spawned), spawned := s.spawned + 1)
  }

  function StartRun(s: SandboxState): SandboxState {
    var t := WithChild(s);
    if t.child.None? then t
    else t.(pending := t.pending + [t.nextId], sentTo := t.sentTo[t.nextId := t.child.value], nextId := t.nextId + 1)
  }

  function Step(s: SandboxState, e: Event): SandboxState {
    match e
    case Start => StartRun(s)
    case Reply(_, id, outcome) => Settle(s, id, outcome)
    case SendError(id) => Settle(s, id, Rejected(UNREACHABLE))
    case TimeOut(_) => Discard(s, TOO_LATE)
    case SpawnError(child) => if s.child == Some(child) then Discard(s, NOT_STARTED) else s
    case Disconnect(child) => if s.child == Some(child) then Discard(s, ENDED) else s
    case Close => Discard(s, CLOSED)
  }

  const UNREACHABLE := "The sandboxed request process could not be reached."
  const TOO_LATE := "The sandboxed request did not finish in time."
  const NOT_STARTED := "The sandboxed request process could not be started."
  const ENDED := "The sandboxed request process ended unexpectedly."
  const CLOSED := "The sandbox was closed."

  // ---- The object ----

  class Sandbox {
    var child: Option<nat>
    var spawned: nat
    var pending: seq<nat>
    var nextId: nat
    var sentTo: map<nat, nat>
    var settled: seq<Settlement>

    function State(): SandboxState
      reads this
    {
      SandboxState(child, spawned, pending, nextId, sentTo, settled)
    }

    constructor ()
      ensures State() == INITIAL
    {
      child, spawned, pending, nextId, sentTo, settled := None, 0, [], 1, map[], [];
    }

    method EnsureChild() returns (c: nat)
      modifies this`child, this`spawned
      ensures State() == WithChild(old(State())) && child == Some(c)
    {
      if child.Some? {
        return child.value;
      }
      c := spawned;
      child, spawned := Some(c), spawned + 1;
    }

    method Run() returns (id: nat)
      modifies this
      ensures State() == Step(old(State()), Start) && id == old(nextId)
    {
      var c := EnsureChild();
      id := nextId;
      nextId := nextId + 1;
      pending := pending + [id];
      sentTo := sentTo[id := c];
    }

    method SettleRun(id: nat, outcome: Outcome)
      modifies this`pending, this`settled
      ensures State() == Settle(old(State()), id, outcome)
    {
      if id !in pending {
        return;
      }
      pending := Without(pending, id);
      settled := settled + [Settlement(id, outcome)];
    }

    method DiscardChild(reason: string)
      modifies this
      ensures State() == Discard(old(State()), reason)
    {
      child := None;
      var ids := pending;
      for i := 0 to |ids|
        invariant pending == ids[i..] && settled == old(settled) + Rejections(ids[..i], reason)
        invariant child == None && spawned == old(spawned) && nextId == old(nextId) && sentTo == old(sentTo)
      {
        assert Without(ids[i..], ids[i]) == ids[i + 1..];
        assert Rejections(ids[..i + 1], reason) == Rejections(ids[..i], reason) + [Settlement(ids[i], Rejected(reason))];
        SettleRun(ids[i], Rejected(reason));
      }
      assert ids[..|ids|] == ids;
    }

    method OnMessage(from: nat, id: nat, outcome: Outcome)
      modifies this
      ensures State() == Step(old(State()), Reply(from, id, outcome))
    {
      SettleRun(id, outcome);
    }

    method OnSendError(id: nat)
      modifies this
      ensures State() == Step(old(State()), SendError(id))
    {
      SettleRun(id, Rejected(UNREACHABLE));
    }

    method OnTimer(id: nat)
      modifies this
      ensures State() == Step(old(State()), TimeOut(id))
    {
      DiscardChild(TOO_LATE);
    }

    method OnError(from: nat)
      modifies this
      ensures State() == Step(old(State()), SpawnError(from))
    {
      if child == Some(from) {
        DiscardChild(NOT_STARTED);
      }
    }

    method OnDisconnect(from: nat)
      modifies this
      ensures State() == Step(old(State()), Disconnect(from))
    {
      if child != Some(from) {
        return;
      }
      DiscardChild(ENDED);
    }

    method CloseSandbox()
      modifies this
      ensures State() == Step(old(State()), Close)
    {
      DiscardChild(CLOSED);
    }
  }

  // ---- What each event does ----

  /** A start issues the next number, last in line, to the child there is or to a new one. */
  lemma StartIssues(s: SandboxState)
    ensures var s' := Step(s, Start);
            && s'.pending == s.pending + [s.nextId] && s'.nextId == s.nextId + 1 && s'.settled == s.settled
            && s'.child == Some(if s.child.Some? then s.child.value else s.spawned)
            && s'.spawned == (if s.child.Some? then s.spawned else s.spawned + 1)
            && s'.sentTo == s.sentTo[s.nextId := s'.child.value]
  {
  }

  /** After the outcomes settled before, all that waited is rejected in order, and the child is given up. */
  ghost predicate RejectsAll(s: SandboxState, s': SandboxState, message: string) {
    && s'.pending == [] && s'.child == None
    && |s'.settled| == |s.settled| + |s.pending| && s'.settled[..|s.settled|] == s.settled
    && (forall i :: 0 <= i < |s.pending| ==> s'.settled[|s.settled| + i] == Settlement(s.pending[i], Rejected(message)))
    && s'.spawned == s.spawned && s'.nextId == s.nextId && s'.sentTo == s.sentTo
  }

  /** One timeout, the loss of the child or closing rejects everything; a child that was given up earlier changes nothing. */
  lemma LossRejectsAll(s: SandboxState, child: nat, id: nat)
    ensures RejectsAll(s, Step(s, TimeOut(id)), "The sandboxed request did not finish in time.")
    ensures RejectsAll(s, Step(s, Close), "The sandbox was closed.")
    ensures s.child == Some(child) ==>
              && RejectsAll(s, Step(s, SpawnError(child)), "The sandboxed request process could not be started.")
              && RejectsAll(s, Step(s, Disconnect(child)), "The sandboxed request process ended unexpectedly.")
    ensures s.child != Some(child) ==> Step(s, SpawnError(child)) == s && Step(s, Disconnect(child)) == s
  {
  }

  /** A run that cannot be sent is rejected, and the others go on waiting in their order. */
  lemma SendErrorRejectsOne(s: SandboxState, id: nat)
    requires Invariant(s)
    ensures var s' := Step(s, SendError(id));
            && s'.settled == (if id in s.pending then s.settled + [Settlement(id, Rejected("The sandboxed request process could not be reached."))] else s.settled)
            && id !in s'.pending && s'.pending == Filter(s.pending, other => other != id) && s'.child == s.child
  {
    var all := s.pending + SettledIds(s);
    assert forall i :: 0 <= i < |s.pending| ==> s.pending[i] == all[i];
    WithoutTakesOut(s.pending, id);
  }

  lemma {:induction false} WithoutTakesOut(ids: seq<nat>, id: nat)
    requires Distinct(ids)
    ensures Without(ids, id) == Filter(ids, other => other != id) && id !in Without(ids, id)
    ensures id !in ids ==> Without(ids, id) == ids
  {
    if ids != [] {
      WithoutTakesOut(ids[1..], id);
      if ids[0] == id { FilterAll(ids[1..], other => other != id); }
    }
  }

  // ---- What holds in every state ----

  function SettledId(s: Settlement): nat {
    s.id
  }

  function SettledIds(s: SandboxState): seq<nat> {
    Map(s.settled, SettledId)
  }

  /**
   * Every id issued is pending or settled, never both and never twice, and what is pending was sent to the child
   * that is running now.
   */
  ghost predicate Invariant(s: SandboxState) {
    && s.nextId >= 1
    && Distinct(s.pending + SettledIds(s))
    && (forall id :: id in s.sentTo <==> id in s.pending + SettledIds(s))
    && (forall id :: id in s.sentTo <==> 1 <= id < s.nextId)
    && (forall id :: id in s.pending ==> id in s.sentTo && s.child == Some(s.sentTo[id]))
    && (forall id :: id in s.sentTo ==> s.sentTo[id] < s.spawned)
    && (s.child.Some? ==> s.child.value < s.spawned)
  }

  lemma {:induction false} WithoutSplits(ids: seq<nat>, id: nat) returns (a: seq<nat>, b: seq<nat>)
    requires id in ids
    ensures ids == a + ([id] + b) && Without(ids, id) == a + b
  {
    if ids[0] == id {
      a, b := [], ids[1..];
    } else {
      a, b := WithoutSplits(ids[1..], id);
      assert ids == ([ids[0]] + a) + ([id] + b);
      a := [ids[0]] + a;
    }
  }

  /** Moving one id from the pending list to the settled list rearranges the ids issued. */
  lemma MoveToSettled(a: seq<nat>, id: nat, b: seq<nat>, settled: seq<nat>)
    requires Distinct((a + ([id] + b)) + settled)
    ensures Distinct((a + b) + (settled + [id]))
    ensures forall x :: x in (a + b) + (settled + [id]) <==> x in (a + ([id] + b)) + settled
  {
    var before, after := (a + ([id] + b)) + settled, (a + b) + (settled + [id]);
    assert multiset(before) == multiset(a) + multiset([id]) + multiset(b) + multiset(settled);
    assert multiset(after) == multiset(before);
    DistinctPermutation(before, after);
    forall x ensures x in after <==> x in before { assert x in multiset(after) <==> x in multiset(before); }
  }

  lemma SettleKeeps(s: SandboxState, id: nat, outcome: Outcome)
    requires Invariant(s)
    ensures Invariant(Settle(s, id, outcome))
  {
    if id in s.pending {
      var a, b := WithoutSplits(s.pending, id);
      var s' := Settle(s, id, outcome);
      MapAppend(s.settled, [Settlement(id, outcome)], SettledId);
      assert SettledIds(s') == SettledIds(s) + [id];
      MoveToSettled(a, id, b, SettledIds(s));
      forall x | x in s'.pending ensures x in s.pending {}
    }
  }

  lemma RejectedIds(ids: seq<nat>, reason: string)
    ensures Map(Rejections(ids, reason), SettledId) == ids
  {
  }

  lemma DiscardKeeps(s: SandboxState, reason: string)
    requires Invariant(s)
    ensures Invariant(Discard(s, reason))
  {
    var s' := Discard(s, reason);
    MapAppend(s.settled, Rejections(s.pending, reason), SettledId);
    RejectedIds(s.pending, reason);
    assert SettledIds(s') == SettledIds(s) + s.pending;
    var before, after := s.pending + SettledIds(s), s'.pending + SettledIds(s');
    assert after == SettledIds(s) + s.pending;
    assert multiset(after) == multiset(before);
    DistinctPermutation(before, after);
    forall x ensures x in after <==> x in before { assert x in multiset(after) <==> x in multiset(before); }
  }

  lemma AddPending(a: seq<nat>, id: nat, b: seq<nat>)
    requires Distinct(a + b) && id !in a + b
    ensures Distinct((a + [id]) + b)
    ensures forall x :: x in (a + [id]) + b <==> x == id || x in a + b
  {
    var before, after := [id] + (a + b), (a + [id]) + b;
    assert multiset(after) == multiset(before);
    assert Distinct(before) by {
      forall i, j | 0 <= i < j < |before| ensures before[i] != before[j] {
        assert before[j] == (a + b)[j - 1];
        if i > 0 { assert before[i] == (a + b)[i - 1]; }
      }
    }
    DistinctPermutation(before, after);
    forall x ensures x in after <==> x == id || x in a + b { assert x in multiset(after) <==> x in multiset(before); }
  }

  lemma WithChildKeeps(s: SandboxState)
    requires Invariant(s)
    ensures Invariant(WithChild(s))
  {
  }

  lemma StartKeeps(s: SandboxState)
    requires Invariant(s)
    ensures Invariant(StartRun(s))
  {
    WithChildKeeps(s);
    var t, id := WithChild(s), s.nextId;
    assert id !in t.sentTo;
    AddPending(t.pending, id, SettledIds(t));
    var s' := StartRun(s);
    assert s'.pending == t.pending + [id] && SettledIds(s') == SettledIds(t);
    forall x ensures x in s'.sentTo <==> x == id || x in t.sentTo {}
  }

  lemma StepKeeps(s: SandboxState, e: Event)
    requires Invariant(s) && Enabled(s, e)
    ensures Invariant(Step(s, e))
  {
    match e
    case Start => StartKeeps(s);
    case Reply(_, id, outcome) => SettleKeeps(s, id, outcome);
    case SendError(id) => SettleKeeps(s, id, Rejected(UNREACHABLE));
    case TimeOut(_) => DiscardKeeps(s, TOO_LATE);
    case SpawnError(_) => DiscardKeeps(s, NOT_STARTED);
    case Disconnect(_) => DiscardKeeps(s, ENDED);
    case Close => DiscardKeeps(s, CLOSED);
  }

  function After(s: SandboxState, events: seq<Event>): SandboxState
    decreases |events|
  {
    if events == [] then s else After(Step(s, events[0]), events[1..])
  }

  predicate Possible(s: SandboxState, events: seq<Event>)
    decreases |events|
  {
    events == [] || (Enabled(s, events[0]) && Possible(Step(s, events[0]), events[1..]))
  }

  lemma {:induction false} RunKeeps(s: SandboxState, events: seq<Event>)
    requires Invariant(s) && Possible(s, events)
    ensures Invariant(After(s, events))
    decreases |events|
  {
    if events != [] {
      StepKeeps(s, events[0]);
      RunKeeps(Step(s, events[0]), events[1..]);
    }
  }

  /**
   * What the process may do at any time: answer a run it was ever sent, settled or not, let a pending one run out of
   * time, or lose any child it ever had; and a run may be started or the sandbox closed.
   */
  lemma AnythingMayHappen(events: seq<Event>, id: nat, child: nat, outcome: Outcome)
    requires Possible(INITIAL, events)
    ensures var s := After(INITIAL, events);
            && Enabled(s, Start) && Enabled(s, Close)
            && (1 <= id < s.nextId ==> id in s.sentTo && Enabled(s, Reply(s.sentTo[id], id, outcome)) && Enabled(s, SendError(id)))
            && (1 <= id < s.nextId && id !in SettledIds(s) ==> Enabled(s, TimeOut(id)))
            && (child < s.spawned ==> Enabled(s, SpawnError(child)) && Enabled(s, Disconnect(child)))
  {
    InitialInvariant();
    RunKeeps(INITIAL, events);
    assert id in After(INITIAL, events).pending + SettledIds(After(INITIAL, events)) <==> id in After(INITIAL, events).sentTo;
  }

  lemma InitialInvariant()
    ensures Invariant(INITIAL)
  {
  }

  /** In every run, pending runs belong to the current child and no run settles twice. */
  lemma PendingBelongsToTheChild(events: seq<Event>)
    requires Possible(INITIAL, events)
    ensures var s := After(INITIAL, events);
            && (forall id :: id in s.pending ==> id in s.sentTo && s.child == Some(s.sentTo[id]))
            && Distinct(SettledIds(s)) && forall id :: id in s.pending ==> id !in SettledIds(s)
  {
    InitialInvariant();
    RunKeeps(INITIAL, events);
    var s := After(INITIAL, events);
    TwoParts(s.pending, SettledIds(s));
  }

  lemma TwoParts<T>(a: seq<T>, b: seq<T>)
    requires Distinct(a + b)
    ensures Distinct(b) && forall x :: x in a ==> x !in b
  {
    var all := a + b;
    forall i | 0 <= i < |b| ensures all[|a| + i] == b[i] {}
    forall i | 0 <= i < |a| ensures all[i] == a[i] {}
  }

  /** A late reply from a child that is not the current one settles nothing. */
  lemma LateReplySettlesNothing(events: seq<Event>, child: nat, id: nat, outcome: Outcome)
    requires Possible(INITIAL, events) && Enabled(After(INITIAL, events), Reply(child, id, outcome))
    requires After(INITIAL, events).child != Some(child)
    ensures Step(After(INITIAL, events), Reply(child, id, outcome)) == After(INITIAL, events)
  {
    PendingBelongsToTheChild(events);
  }

  /** A reply settles the run with its id, with its own outcome, or nothing; every other pending run goes on waiting. */
  lemma ReplyReachesItsRun(s: SandboxState, child: nat, id: nat, outcome: Outcome)
    requires Invariant(s)
    ensures var s' := Step(s, Reply(child, id, outcome));
            && s'.settled == (if id in s.pending then s.settled + [Settlement(id, outcome)] else s.settled)
            && id !in s'.pending && forall other :: other != id ==> (other in s'.pending <==> other in s.pending)
  {
    if id in s.pending {
      var a, b := WithoutSplits(s.pending, id);
      TwoPartsOfPending(a, id, b, SettledIds(s));
    }
  }

  lemma TwoPartsOfPending(a: seq<nat>, id: nat, b: seq<nat>, rest: seq<nat>)
    requires Distinct((a + ([id] + b)) + rest)
    ensures id !in a + b
  {
    var all := (a + ([id] + b)) + rest;
    assert all[|a|] == id;
    forall i | 0 <= i < |a| ensures all[i] == a[i] {}
    forall i | 0 <= i < |b| ensures all[|a| + 1 + i] == b[i] {}
  }

  /** Once the sandbox is closed nothing is pending, and every run ever started has settled exactly once. */
  lemma CloseSettlesEverything(events: seq<Event>)
    requires Possible(INITIAL, events)
    ensures var s := Step(After(INITIAL, events), Close);
            s.pending == [] && s.child == None && Distinct(SettledIds(s))
            && forall id :: id in SettledIds(s) <==> 1 <= id < s.nextId
  {
    InitialInvariant();
    RunKeeps(INITIAL, events);
    StepKeeps(After(INITIAL, events), Close);
    var s := Step(After(INITIAL, events), Close);
    assert s.pending + SettledIds(s) == SettledIds(s);
  }
}
