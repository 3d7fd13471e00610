/** The acknowledgement registry: who is waiting for which outcome, and what each one is sent. */
module Acks {
  import opened Entries

  datatype AckTarget = AwaitFlowVersion | AwaitExecution | AwaitTaskCompletion | Grant

  datatype ActivatedTask = ActivatedTask(task: string, resource: string, arguments: string)

  datatype Outcome = Applied(event: Event) | Rejected(reject: Reject) | Granted(tasks: seq<ActivatedTask>)

  /** A one-shot receiver: still open, sent its one outcome, or closed because its sender went away. */
  datatype Status = Waiting | Sent(outcome: Outcome) | Dropped

  datatype Awaiter = Awaiter(key: RequestId, target: AckTarget, status: Status)

  /** The request id an event echoes and the outcome it stands for; `FlowCreated` is deliberately none. */
  function Resolves(event: Event): Option<(RequestId, AckTarget)>
  {
    match event
    case FlowVersionCreated(id, _) => Some((id, AwaitFlowVersion))
    case ExecutionCreated(id, _) => Some((id, AwaitExecution))
    case TaskCompleted(id, _) => Some((id, AwaitTaskCompletion))
    case TasksClaimed(id, _) => Some((id, Grant))
    case FlowCreated(_, _) => None
    case ChildCreated(_, _) => None
    case OtherEvent(_) => None
  }

  function GrantedFrom(tasks: seq<Task>): seq<ActivatedTask>
  {
    seq(|tasks|, i requires 0 <= i < |tasks| => ActivatedTask(tasks[i].name, tasks[i].resource, tasks[i].arguments))
  }

  /** What an event that resolves a target sends. */
  function OutcomeOf(event: Event): Outcome
  {
    if event.TasksClaimed? then Granted(GrantedFrom(event.tasks)) else Applied(event)
  }

  // ---------- The registry as a machine ----------

  datatype Call =
    | Register(key: RequestId, target: AckTarget)
    | EventApplied(event: Event)
    | CommandRejected(key: RequestId, reject: Reject)

  datatype Registry = Registry(pending: map<RequestId, nat>, awaiters: seq<Awaiter>)
  {
    /** Exactly the waiting awaiters are pending, each under its own key. */
    ghost predicate Valid()
    {
      && (forall key | key in pending :: pending[key] < |awaiters| && awaiters[pending[key]].key == key
                                         && awaiters[pending[key]].status.Waiting?)
      && (forall i | 0 <= i < |awaiters| && awaiters[i].status.Waiting? ::
            awaiters[i].key in pending && pending[awaiters[i].key] == i)
    }
  }

  const EMPTY := Registry(map[], [])

  /** The awaiter of `key`, if any, is settled and forgotten. */
  function Settle(r: Registry, key: RequestId, status: Status): Registry
  {
    if key in r.pending && r.pending[key] < |r.awaiters| then
      var i := r.pending[key];
      Registry(r.pending - {key}, r.awaiters[i := r.awaiters[i].(status := status)])
    else r
  }

  function Next(r: Registry, call: Call): Registry
  {
    match call
    case Register(key, target) =>
      var s := Settle(r, key, Dropped);
      Registry(s.pending[key := |s.awaiters|], s.awaiters + [Awaiter(key, target, Waiting)])
    case EventApplied(event) =>
      (match Resolves(event)
       case None => r
       case Some((key, target)) =>
         if key in r.pending && r.pending[key] < |r.awaiters| && r.awaiters[r.pending[key]].target == target
         then Settle(r, key, Sent(OutcomeOf(event)))
         else Settle(r, key, Dropped))
    case CommandRejected(key, reject) => Settle(r, key, Sent(Rejected(reject)))
  }

  function After(calls: seq<Call>): Registry
  {
    if calls == [] then EMPTY else Next(After(calls[..|calls| - 1]), calls[|calls| - 1])
  }

  // ---------- The registry as the server runs it ----------

  class AckHook {
    var pending: map<RequestId, nat>
    var awaiters: seq<Awaiter>

    function State(): Registry
      reads this
    {
      Registry(pending, awaiters)
    }

    constructor ()
      ensures State() == EMPTY
    {
      pending, awaiters := map[], [];
    }

    /** A second registration under a live key drops the first one's sender. */
    method Register(key: RequestId, target: AckTarget) returns (id: nat)
      requires State().Valid()
      modifies this
      ensures State() == Next(old(State()), Call.Register(key, target)) && id == old(|awaiters|)
    {
      if key in pending { awaiters := awaiters[pending[key] := awaiters[pending[key]].(status := Dropped)]; }
      id := |awaiters|;
      awaiters := awaiters + [Awaiter(key, target, Waiting)];
      assert (pending - {key})[key := id] == pending[key := id];
      pending := pending[key := id];
    }

    method OnEventApplied(event: Event)
      requires State().Valid()
      modifies this
      ensures State() == Next(old(State()), EventApplied(event))
    {
      var resolved := Resolves(event);
      if resolved.None? { return; }
      var (key, target) := resolved.value;
      if key !in pending { return; }
      var i := pending[key];
      pending := pending - {key};
      if awaiters[i].target != target {
        awaiters := awaiters[i := awaiters[i].(status := Dropped)];
        return;
      }
      match target {
        case Grant =>
          match event {
            case TasksClaimed(_, tasks) =>
              awaiters := awaiters[i := awaiters[i].(status := Sent(Granted(GrantedFrom(tasks))))];
            case _ => assert false;
          }
        case _ => awaiters := awaiters[i := awaiters[i].(status := Sent(Applied(event)))];
      }
    }

    method OnCommandRejected(key: RequestId, reject: Reject)
      requires State().Valid()
      modifies this
      ensures State() == Next(old(State()), CommandRejected(key, reject))
    {
      if key in pending {
        var i := pending[key];
        pending := pending - {key};
        awaiters := awaiters[i := awaiters[i].(status := Sent(Rejected(reject)))];
      }
    }
  }

  // ---------- What every awaiter gets ----------

  /** The event is the outcome awaited as `target` under this key. */
  ghost predicate IsOutcome(target: AckTarget, key: RequestId, event: Event)
  {
    match target
    case AwaitFlowVersion => event.FlowVersionCreated? && event.requestId == key
    case AwaitExecution => event.ExecutionCreated? && event.requestId == key
    case AwaitTaskCompletion => event.TaskCompleted? && event.requestId == key
    case Grant => event.TasksClaimed? && event.requestId == key
  }

  /** What is granted is what was claimed, task by task and field by field. */
  ghost predicate Grants(granted: seq<ActivatedTask>, claimed: seq<Task>)
  {
    && |granted| == |claimed|
    && forall i | 0 <= i < |granted| ::
         && granted[i].task == claimed[i].name
         && granted[i].resource == claimed[i].resource
         && granted[i].arguments == claimed[i].arguments
  }

  /** An outcome an awaiter may be sent: a grant or its own event variant under its own key, or a rejection. */
  ghost predicate Fits(a: Awaiter)
  {
    match a.status
    case Waiting => true
    case Dropped => true
    case Sent(Rejected(_)) => true
    case Sent(Granted(_)) => a.target == Grant
    case Sent(Applied(event)) => a.target != Grant && IsOutcome(a.target, a.key, event)
  }

  ghost predicate AllFit(r: Registry)
  {
    forall i | 0 <= i < |r.awaiters| :: Fits(r.awaiters[i])
  }

  lemma SettleKeepsValid(r: Registry, key: RequestId, status: Status)
    requires r.Valid() && !status.Waiting?
    ensures Settle(r, key, status).Valid() && key !in Settle(r, key, status).pending
  {
    if key in r.pending {
      var s := Settle(r, key, status);
      forall k | k in s.pending ensures r.pending[k] != r.pending[key] {
        assert r.awaiters[r.pending[k]].key == k;
      }
    }
  }

  lemma NextKeepsValid(r: Registry, call: Call)
    requires r.Valid() && AllFit(r)
    ensures Next(r, call).Valid() && AllFit(Next(r, call))
  {
    match call {
      case Register(key, target) => SettleKeepsValid(r, key, Dropped);
      case CommandRejected(key, reject) => SettleKeepsValid(r, key, Sent(Rejected(reject)));
      case EventApplied(event) =>
        if Resolves(event).Some? {
          var key := Resolves(event).value.0;
          SettleKeepsValid(r, key, Dropped);
          SettleKeepsValid(r, key, Sent(OutcomeOf(event)));
        }
    }
  }

  lemma {:induction false} AfterIsValid(calls: seq<Call>)
    ensures After(calls).Valid() && AllFit(After(calls))
    decreases |calls|
  {
    if calls != [] {
      AfterIsValid(calls[..|calls| - 1]);
      NextKeepsValid(After(calls[..|calls| - 1]), calls[|calls| - 1]);
    }
  }

  /** At most one outcome each: once settled, an awaiter never changes again, whatever is called. */
  lemma {:induction false} SettledForGood(calls: seq<Call>, n: nat, i: nat)
    requires n <= |calls| && i < |After(calls[..n]).awaiters| && !After(calls[..n]).awaiters[i].status.Waiting?
    ensures i < |After(calls).awaiters| && After(calls).awaiters[i] == After(calls[..n]).awaiters[i]
    decreases |calls|
  {
    if n == |calls| {
      assert calls[..n] == calls;
    } else {
      var front := calls[..|calls| - 1];
      assert front[..n] == calls[..n];
      SettledForGood(front, n, i);
      AfterIsValid(front);
    }
  }

  datatype AckFailure = NoAck | Refused(reject: Reject)

  datatype Awaited<+T> = Ok(value: T) | Failed(failure: AckFailure)

  /** `await_event` on a receiver that has resolved. Its grant arm has no case here: it cannot be reached. */
  function AwaitEvent(a: Awaiter): (r: Awaited<Event>)
    requires Fits(a) && a.target != Grant && !a.status.Waiting?
    ensures r.Ok? ==> IsOutcome(a.target, a.key, r.value)
    ensures forall event :: r == Ok(event) <==> a.status == Sent(Applied(event))
    ensures forall reject :: r == Failed(Refused(reject)) <==> a.status == Sent(Rejected(reject))
  {
    match a.status
    case Sent(Applied(event)) => Ok(event)
    case Sent(Rejected(reject)) => Failed(Refused(reject))
    case Dropped => Failed(NoAck)
  }

  /** `await_tasks` on a receiver that has resolved. Its event arm has no case here: it cannot be reached. */
  function AwaitTasks(a: Awaiter): (r: Awaited<seq<ActivatedTask>>)
    requires Fits(a) && a.target == Grant && !a.status.Waiting?
    ensures forall tasks :: r == Ok(tasks) <==> a.status == Sent(Granted(tasks))
    ensures forall reject :: r == Failed(Refused(reject)) <==> a.status == Sent(Rejected(reject))
  {
    match a.status
    case Sent(Granted(tasks)) => Ok(tasks)
    case Sent(Rejected(reject)) => Failed(Refused(reject))
    case Dropped => Failed(NoAck)
  }

  // ---------- Exactly which outcome ----------

  /** The call removes the registration of this key. */
  ghost predicate Touches(call: Call, key: RequestId)
  {
    match call
    case Register(k, _) => k == key
    case EventApplied(event) => exists target :: IsOutcome(target, key, event)
    case CommandRejected(k, _) => k == key
  }

  /** The awaiter is left as a call that touched its key while it was waiting leaves it. */
  ghost predicate Verdict(a: Awaiter, call: Call)
  {
    match call
    case Register(_, _) => a.status == Dropped
    case CommandRejected(_, reject) => a.status == Sent(Rejected(reject))
    case EventApplied(event) =>
      if !IsOutcome(a.target, a.key, event) then a.status == Dropped
      else if event.TasksClaimed? then
        a.status.Sent? && a.status.outcome.Granted? && Grants(a.status.outcome.tasks, event.tasks)
      else a.status == Sent(Applied(event))
  }

  /** One call on one awaiter: decided if it was waiting and its key is touched, and else as it was. */
  ghost predicate Follows(a: Awaiter, call: Call, next: Awaiter)
  {
    && next.key == a.key && next.target == a.target
    && if a.status.Waiting? && Touches(call, a.key) then !next.status.Waiting? && Verdict(next, call) else next == a
  }

  function Registered(calls: seq<Call>): nat { |After(calls).awaiters| }

  ghost predicate Untouched(calls: seq<Call>, i: nat, j: int, key: RequestId)
    requires j <= |calls|
  {
    forall k | i < k < j :: !Touches(calls[k], key)
  }

  /** The first call after `i` that touches the key is at `j`. */
  ghost predicate FirstTouchAt(calls: seq<Call>, i: nat, j: int, key: RequestId)
  {
    i < j < |calls| && Touches(calls[j], key) && Untouched(calls, i, j, key)
  }

  /** The awaiter that call `i` registered is as the calls after it decide. */
  ghost predicate Decided(calls: seq<Call>, i: nat, a: Awaiter)
    requires i < |calls| && calls[i].Register?
  {
    && a.key == calls[i].key && a.target == calls[i].target
    && (a.status.Waiting? <==> Untouched(calls, i, |calls|, a.key))
    && forall j | FirstTouchAt(calls, i, j, a.key) :: Verdict(a, calls[j])
  }

  lemma DecidedFresh(front: seq<Call>, call: Call)
    requires call.Register?
    ensures |Next(After(front), call).awaiters| == Registered(front) + 1
    ensures Decided(front + [call], |front|, Next(After(front), call).awaiters[Registered(front)])
  {
  }

  lemma AfterSnoc(front: seq<Call>, call: Call)
    ensures After(front + [call]) == Next(After(front), call)
  {
    assert (front + [call])[..|front|] == front;
  }

  /** Until something touches its key, an awaiter waits; the first call that does decides it, for good. */
  lemma {:induction false} DecidedByFirstTouch(calls: seq<Call>, i: nat)
    requires i < |calls| && calls[i].Register?
    ensures Registered(calls[..i]) < Registered(calls) &&
      Decided(calls, i, After(calls).awaiters[Registered(calls[..i])])
    decreases |calls|
  {
    var front, call, id := calls[..|calls| - 1], calls[|calls| - 1], Registered(calls[..i]);
    assert front + [call] == calls;
    AfterSnoc(front, call);
    if i < |front| {
      assert front[..i] == calls[..i];
      DecidedByFirstTouch(front, i);
      AfterIsValid(front);
      AwaiterAfter(After(front), call, id);
      DecidedNext(front, call, i, After(front).awaiters[id], After(calls).awaiters[id]);
    } else {
      assert front == calls[..i];
      DecidedFresh(front, call);
    }
  }

  lemma UntouchedNext(front: seq<Call>, call: Call, i: nat, key: RequestId)
    requires i < |front|
    ensures Untouched(front + [call], i, |front| + 1, key) <==> Untouched(front, i, |front|, key) && !Touches(call, key)
  {
    var calls := front + [call];
    assert forall k | 0 <= k < |front| :: calls[k] == front[k];
    assert calls[|front|] == call;
  }

  lemma FirstTouchNext(front: seq<Call>, call: Call, i: nat, key: RequestId, j: int)
    requires i < |front| && FirstTouchAt(front + [call], i, j, key)
    ensures if j < |front| then FirstTouchAt(front, i, j, key)
            else j == |front| && Touches(call, key) && Untouched(front, i, |front|, key)
  {
    var calls := front + [call];
    assert forall k | 0 <= k < |front| :: calls[k] == front[k];
  }

  lemma DecidedNext(front: seq<Call>, call: Call, i: nat, a: Awaiter, next: Awaiter)
    requires i < |front| && front[i].Register? && Decided(front, i, a) && Follows(a, call, next)
    ensures Decided(front + [call], i, next)
  {
    UntouchedNext(front, call, i, a.key);
    forall j | FirstTouchAt(front + [call], i, j, a.key)
      ensures if j < |front| then Verdict(a, front[j]) else a.status.Waiting? && Touches(call, a.key)
      ensures j < |front| ==> !a.status.Waiting?
    {
      FirstTouchNext(front, call, i, a.key, j);
      if j < |front| { assert !Untouched(front, i, |front|, a.key); }
    }
  }

  lemma AwaiterAfter(r: Registry, call: Call, id: nat)
    requires r.Valid() && id < |r.awaiters|
    ensures id < |Next(r, call).awaiters| && Follows(r.awaiters[id], call, Next(r, call).awaiters[id])
  {
    if call.EventApplied? && Resolves(call.event).Some? {
      var (key, target) := Resolves(call.event).value;
      assert IsOutcome(target, key, call.event);
    }
  }

  /**
   * With a fresh key, and only its own outcome variants echoing it, an awaiter is never dropped: it
   * waits, or it holds exactly the outcome of the first call about it.
   */
  lemma OwnOutcomeArrives(calls: seq<Call>, i: nat)
    requires i < |calls| && calls[i].Register?
    requires forall j | i < j < |calls| && calls[j].Register? :: calls[j].key != calls[i].key
    requires forall j, target | i < j < |calls| && calls[j].EventApplied?
               && IsOutcome(target, calls[i].key, calls[j].event) :: target == calls[i].target
    ensures var id := Registered(calls[..i]);
      id < Registered(calls) && !After(calls).awaiters[id].status.Dropped?
  {
    DecidedByFirstTouch(calls, i);
    var a := After(calls).awaiters[Registered(calls[..i])];
    if !a.status.Waiting? {
      var j := FirstTouch(calls, i, a.key);
    }
  }

  /** The first call about a registered key, if it is an event of the awaited variant, is what the awaiter is sent. */
  lemma OutcomeDelivered(calls: seq<Call>, i: nat, j: nat)
    requires i < j < |calls| && calls[i].Register? && calls[j].EventApplied?
    requires IsOutcome(calls[i].target, calls[i].key, calls[j].event)
    requires forall k | i < k < j :: !Touches(calls[k], calls[i].key)
    ensures Registered(calls[..i]) < Registered(calls)
    ensures var a := After(calls).awaiters[Registered(calls[..i])];
      && a.key == calls[i].key && a.target == calls[i].target && a.status.Sent?
      && if a.target == Grant then a.status.outcome.Granted? && Grants(a.status.outcome.tasks, calls[j].event.tasks)
         else a.status.outcome == Applied(calls[j].event)
  {
    DecidedByFirstTouch(calls, i);
    assert FirstTouchAt(calls, i, j, calls[i].key);
  }

  lemma FirstTouch(calls: seq<Call>, i: nat, key: RequestId) returns (j: nat)
    requires !Untouched(calls, i, |calls|, key)
    ensures FirstTouchAt(calls, i, j, key)
  {
    j := i + 1;
    while !Touches(calls[j], key)
      invariant i < j < |calls| && Untouched(calls, i, j, key) && !Untouched(calls, i, |calls|, key)
      decreases |calls| - j
    {
      var m :| i < m < |calls| && Touches(calls[m], key);
      assert m > j;
      j := j + 1;
    }
  }

  /** Without that, one event of another variant under the key is enough to lose the acknowledgement. */
  lemma ForeignVariantDrops(key: RequestId, body: string)
    ensures After([Call.Register(key, AwaitExecution), EventApplied(TaskCompleted(key, body)),
      EventApplied(ExecutionCreated(key, body))])
      .awaiters == [Awaiter(key, AwaitExecution, Dropped)]
  {
    var calls := [Call.Register(key, AwaitExecution), EventApplied(TaskCompleted(key, body)),
      EventApplied(ExecutionCreated(key, body))];
    assert calls[..2][..1] == [calls[0]] && calls[..1][..0] == [];
    assert calls[..2] == [calls[0], calls[1]];
    assert After([calls[0]]) == Next(EMPTY, calls[0]);
    assert After([calls[0], calls[1]]) == Next(After([calls[0]]), calls[1]);
    assert After(calls) == Next(After(calls[..2]), calls[2]);
  }
}
