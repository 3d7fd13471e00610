/** The log record, the fold of a log into a projection, and the shape every engine log has. */
module Entries {

  datatype Option<+T> = None | Some(value: T)

  // A request id is opaque; NIL_REQUEST is the id of a command nobody awaits.
  type RequestId = nat
  const NIL_REQUEST: RequestId := 0

  datatype Command = Command(requestId: Option<RequestId>, body: string)

  datatype Task = Task(name: string, resource: string, arguments: string)

  const I64_MAX: int := 0x7FFF_FFFF_FFFF_FFFF
  const TWO_TO_64: int := 0x1_0000_0000_0000_0000

  type U64 = n: int | 0 <= n < 0x1_0000_0000_0000_0000

  // Spelled out are the event variants that echo a request id, and the ones that create a child (a thread,
  // an activity or a task) under a name, with that name's generated suffix; every other variant is `OtherEvent`.
  datatype Event =
    | FlowCreated(requestId: RequestId, body: string)
    | FlowVersionCreated(requestId: RequestId, body: string)
    | ExecutionCreated(requestId: RequestId, body: string)
    | TaskCompleted(requestId: RequestId, body: string)
    | TasksClaimed(requestId: RequestId, tasks: seq<Task>)
    | ChildCreated(suffix: Option<U64>, body: string)
    | OtherEvent(body: string)

  datatype RejectionType = InvalidArgument | InvalidState | NotFound | AlreadyExists | ProcessingError

  datatype Reject = Reject(requestId: RequestId, rejectionType: RejectionType, reason: string)

  datatype Payload =
    | CommandPayload(command: Command)
    | EventPayload(event: Event)
    | RejectPayload(reject: Reject)
    | Noop

  type Timestamp = nat

  // The id of an entry the log has not stamped yet.
  const NIL_ID: int := -1

  datatype Entry = Entry(streamId: int, entryId: int, cause: Option<int>, timestamp: Timestamp, payload: Payload)
  {
    predicate IsCommand() { payload.CommandPayload? }
    predicate IsEvent() { payload.EventPayload? }
    predicate IsReject() { payload.RejectPayload? }
    predicate IsNoop() { payload.Noop? }
  }

  /** What storage holds for readers. Nothing below depends on what it is. */
  type Projection(!new)

  /** An applier: a pure, total fold of one event, at its entry's own stamp, into a projection. */
  type Applier = (Projection, Event, Timestamp) -> Projection

  /** The fold of the first `n` entries, in order, each at its own stamp. Only events touch the projection. */
  function FoldTo(ap: Applier, p: Projection, entries: seq<Entry>, n: nat): Projection
    requires n <= |entries|
  {
    if n == 0 then p
    else
      var before := FoldTo(ap, p, entries, n - 1);
      var last := entries[n - 1];
      if last.IsEvent() then ap(before, last.payload.event, last.timestamp) else before
  }

  /** The events among the first `n` entries, in order. */
  function EventsTo(entries: seq<Entry>, n: nat): seq<Event>
    requires n <= |entries|
  {
    if n == 0 then []
    else if entries[n - 1].IsEvent() then EventsTo(entries, n - 1) + [entries[n - 1].payload.event]
    else EventsTo(entries, n - 1)
  }

  /** The rejects among the first `n` entries, in order. */
  function RejectsTo(entries: seq<Entry>, n: nat): seq<Reject>
    requires n <= |entries|
  {
    if n == 0 then []
    else if entries[n - 1].IsReject() then RejectsTo(entries, n - 1) + [entries[n - 1].payload.reject]
    else RejectsTo(entries, n - 1)
  }

  /** Indexes in order, each once, all of them in a..b. */
  ghost predicate Rising(idx: seq<int>, a: int, b: int)
  {
    && (forall i | 0 <= i < |idx| :: a <= idx[i] < b)
    && (forall i, j | 0 <= i < j < |idx| :: idx[i] < idx[j])
  }

  lemma RisingSnoc(idx: seq<int>, a: int, b: int)
    requires a < b && Rising(idx, a, b - 1)
    ensures Rising(idx + [b - 1], a, b) && b - 1 in idx + [b - 1] && forall i | i in idx :: i in idx + [b - 1]
  {
    assert (idx + [b - 1])[|idx|] == b - 1;
  }

  /** The list holds exactly the events at indexes a..b, each once, in the order of their indexes. */
  ghost predicate ListsEvents(entries: seq<Entry>, a: int, b: int, events: seq<Event>, idx: seq<int>)
    requires 0 <= a && b <= |entries|
  {
    && Rising(idx, a, b) && |idx| == |events|
    && (forall k | 0 <= k < |idx| :: entries[idx[k]].payload == EventPayload(events[k]))
    && (forall i | a <= i < b && entries[i].IsEvent() :: i in idx)
  }

  /** The same of the rejects. */
  ghost predicate ListsRejects(entries: seq<Entry>, n: int, rejects: seq<Reject>, idx: seq<int>)
    requires n <= |entries|
  {
    && Rising(idx, 0, n) && |idx| == |rejects|
    && (forall k | 0 <= k < |idx| :: entries[idx[k]].payload == RejectPayload(rejects[k]))
    && (forall i | 0 <= i < n && entries[i].IsReject() :: i in idx)
  }

  lemma ListsOneMore(entries: seq<Entry>, a: nat, b: nat, events: seq<Event>, idx: seq<int>) returns (more: seq<int>)
    requires a < b <= |entries| && ListsEvents(entries, a, b - 1, events, idx)
    ensures more == if entries[b - 1].IsEvent() then idx + [b - 1] else idx
    ensures entries[b - 1].IsEvent() ==> ListsEvents(entries, a, b, events + [entries[b - 1].payload.event], more)
    ensures !entries[b - 1].IsEvent() ==> ListsEvents(entries, a, b, events, more)
  {
    more := idx;
    if entries[b - 1].IsEvent() {
      more := idx + [b - 1];
      RisingSnoc(idx, a, b);
      forall i | a <= i < b - 1 && entries[i].IsEvent() ensures i in more {
        assert i in idx;
      }
    }
  }

  lemma RejectsOneMore(entries: seq<Entry>, n: nat, rejects: seq<Reject>, idx: seq<int>) returns (more: seq<int>)
    requires 0 < n <= |entries| && ListsRejects(entries, n - 1, rejects, idx)
    ensures entries[n - 1].IsReject() ==> ListsRejects(entries, n, rejects + [entries[n - 1].payload.reject], more)
    ensures !entries[n - 1].IsReject() ==> ListsRejects(entries, n, rejects, more)
  {
    more := idx;
    if entries[n - 1].IsReject() {
      more := idx + [n - 1];
      RisingSnoc(idx, 0, n);
      forall i | 0 <= i < n - 1 && entries[i].IsReject() ensures i in more {
        assert i in idx;
      }
    }
  }

  /** The events of a list of entries, in order and each once. */
  lemma {:induction false} EventsExact(entries: seq<Entry>, n: nat) returns (idx: seq<int>)
    requires n <= |entries|
    ensures ListsEvents(entries, 0, n, EventsTo(entries, n), idx)
    ensures forall e :: e in EventsTo(entries, n) <==>
      exists i :: 0 <= i < n && entries[i].payload == EventPayload(e)
  {
    idx := [];
    if n > 0 {
      idx := EventsExact(entries, n - 1);
      idx := ListsOneMore(entries, 0, n, EventsTo(entries, n - 1), idx);
    }
  }

  lemma {:induction false} RejectsExact(entries: seq<Entry>, n: nat) returns (idx: seq<int>)
    requires n <= |entries|
    ensures ListsRejects(entries, n, RejectsTo(entries, n), idx)
    ensures forall r :: r in RejectsTo(entries, n) <==>
      exists i :: 0 <= i < n && entries[i].payload == RejectPayload(r)
  {
    idx := [];
    if n > 0 {
      idx := RejectsExact(entries, n - 1);
      idx := RejectsOneMore(entries, n, RejectsTo(entries, n - 1), idx);
    }
  }

  function Fold(ap: Applier, p: Projection, entries: seq<Entry>): Projection { FoldTo(ap, p, entries, |entries|) }

  function Events(entries: seq<Entry>): seq<Event> { EventsTo(entries, |entries|) }

  function Rejects(entries: seq<Entry>): seq<Reject> { RejectsTo(entries, |entries|) }

  ghost predicate QuietBetween(log: seq<Entry>, a: int, b: int)
    requires 0 <= a && b <= |log|
  {
    forall k | a <= k < b :: !log[k].IsEvent()
  }

  ghost predicate Quiet(entries: seq<Entry>) { QuietBetween(entries, 0, |entries|) }

  lemma {:induction false} FoldQuiet(ap: Applier, p: Projection, log: seq<Entry>, a: nat, b: nat)
    requires a <= b <= |log| && QuietBetween(log, a, b)
    ensures FoldTo(ap, p, log, b) == FoldTo(ap, p, log, a)
    ensures EventsTo(log, b) == EventsTo(log, a)
    decreases b
  {
    if a < b { FoldQuiet(ap, p, log, a, b - 1); }
  }

  /** From state to state by the applier alone, one event after the other, each at its own stamp. */
  ghost predicate Passes(ap: Applier, entries: seq<Entry>, events: seq<Event>, idx: seq<int>, states: seq<Projection>)
  {
    && |states| == |idx| + 1 && |events| == |idx| && (forall k | 0 <= k < |idx| :: 0 <= idx[k] < |entries|)
    && forall k | 0 <= k < |idx| :: states[k + 1] == ap(states[k], events[k], entries[idx[k]].timestamp)
  }

  lemma PassesOneMore(ap: Applier, entries: seq<Entry>, events: seq<Event>, idx: seq<int>, states: seq<Projection>,
                      event: Event, i: nat)
    requires Passes(ap, entries, events, idx, states) && i < |entries|
    ensures Passes(ap, entries, events + [event], idx + [i],
              states + [ap(states[|idx|], event, entries[i].timestamp)])
  {
  }

  /** A fold passes from the first state to the last over exactly the events, in order and each once. */
  lemma {:induction false} FoldExact(ap: Applier, p: Projection, entries: seq<Entry>, n: nat)
    returns (idx: seq<int>, states: seq<Projection>)
    requires n <= |entries|
    ensures ListsEvents(entries, 0, n, EventsTo(entries, n), idx)
    ensures Passes(ap, entries, EventsTo(entries, n), idx, states)
    ensures states[0] == p && states[|idx|] == FoldTo(ap, p, entries, n)
  {
    idx, states := [], [p];
    if n > 0 {
      var before, front := FoldExact(ap, p, entries, n - 1);
      idx := ListsOneMore(entries, 0, n, EventsTo(entries, n - 1), before);
      states := front;
      if entries[n - 1].IsEvent() {
        PassesOneMore(ap, entries, EventsTo(entries, n - 1), before, front, entries[n - 1].payload.event, n - 1);
        states := front + [FoldTo(ap, p, entries, n)];
      }
    }
  }

  /** A fold looks only at the entries it covers. */
  lemma {:induction false} FoldPrefix(ap: Applier, p: Projection, log: seq<Entry>, longer: seq<Entry>, n: nat)
    requires n <= |log| && log <= longer
    ensures FoldTo(ap, p, longer, n) == FoldTo(ap, p, log, n)
    ensures EventsTo(longer, n) == EventsTo(log, n) && RejectsTo(longer, n) == RejectsTo(log, n)
  {
    if n > 0 { FoldPrefix(ap, p, log, longer, n - 1); }
  }

  /** `part` has the payloads and stamps of `log` from index `at` on, whatever ids the log stamped on them. */
  ghost predicate ContentAt(log: seq<Entry>, at: nat, part: seq<Entry>)
  {
    at + |part| <= |log| &&
    forall k | 0 <= k < |part| :: part[k].payload == log[at + k].payload && part[k].timestamp == log[at + k].timestamp
  }

  lemma {:induction false} FoldPart(ap: Applier, p: Projection, log: seq<Entry>, at: nat, part: seq<Entry>, n: nat)
    requires ContentAt(log, at, part) && n <= |part|
    ensures FoldTo(ap, p, log, at + n) == FoldTo(ap, FoldTo(ap, p, log, at), part, n)
    ensures EventsTo(log, at + n) == EventsTo(log, at) + EventsTo(part, n)
    ensures RejectsTo(log, at + n) == RejectsTo(log, at) + RejectsTo(part, n)
  {
    if n > 0 {
      FoldPart(ap, p, log, at, part, n - 1);
      assert part[n - 1].payload == log[at + (n - 1)].payload;
    }
  }

  lemma EventsConcat(ap: Applier, p: Projection, a: seq<Entry>, b: seq<Entry>)
    ensures Events(a + b) == Events(a) + Events(b)
    ensures Rejects(a + b) == Rejects(a) + Rejects(b)
  {
    FoldPart(ap, p, a + b, |a|, b, |b|);
    FoldPrefix(ap, p, a, a + b, |a|);
  }

  /** What an append does to its entries: positions and the log's own stream id are stamped on. */
  function Stamp(stream: int, first: int, entries: seq<Entry>): (r: seq<Entry>)
    ensures |r| == |entries|
    ensures forall k | 0 <= k < |r| ::
      r[k] == entries[k].(streamId := stream, entryId := first + k)
  {
    seq(|entries|, k requires 0 <= k < |entries| => entries[k].(streamId := stream, entryId := first + k))
  }

  /** The guard the engine wraps its log in: an append not closed by a Noop gains a cause-less one. */
  function Terminated(entries: seq<Entry>, now: Timestamp): (r: seq<Entry>)
    ensures r != [] && r[|r| - 1].IsNoop()
    ensures entries <= r
  {
    if entries != [] && entries[|entries| - 1].IsNoop() then entries
    else entries + [Entry(NIL_ID, NIL_ID, None, now, Noop)]
  }

  /** No Noop in `log[i..j]`: the entries i..=j were written by one append. */
  ghost predicate SameRun(log: seq<Entry>, i: int, j: int)
    requires 0 <= i <= j <= |log|
  {
    forall k | i <= k < j :: !log[k].IsNoop()
  }

  /** `p` is a position a watermark may rest on: the start of the log or a Noop. */
  ghost predicate Boundary(log: seq<Entry>, p: int)
  {
    p == 0 || (0 < p <= |log| && log[p - 1].IsNoop())
  }
}
