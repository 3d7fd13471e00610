/** One dispatch: the collector that envelopes what a handler emits, and the leader's retry policy around it. */
module Dispatching {
  import opened Entries
  import opened Protocol
  import opened Counter

  // ---------- Durable state the driver commits to ----------

  /** The committed side of storage: the projection, its watermark and the generated-name counter. */
  class Storage {
    var projection: Projection
    var position: nat
    var nextSeq: nat

    constructor (p0: Projection)
      ensures projection == p0 && position == 0 && nextSeq == 0
    {
      projection, position, nextSeq := p0, 0, 0;
    }

    method Commit(work: Work, watermark: nat)
      modifies this
      ensures projection == work.projection && position == watermark
      ensures nextSeq == if old(nextSeq) < work.nextSeq then work.nextSeq else old(nextSeq)
    {
      projection, position := work.projection, watermark;
      if nextSeq < work.nextSeq { nextSeq := work.nextSeq; }
    }
  }

  /** A working transaction: committed state overlaid with what one dispatch did. */
  datatype Work = Work(projection: Projection, nextSeq: nat)

  class Leader {
    var watermark: int
    var lastApplied: seq<Event>

    constructor ()
      ensures watermark == 0 && lastApplied == []
    {
      watermark, lastApplied := 0, [];
    }
  }

  // ---------- What a handler does ----------

  /** One act of a handler: emit a record at a clock reading, or mint a generated-name suffix. */
  datatype Act =
    | EmitEvent(event: Event, at: Timestamp)
    | EmitCommand(command: Command, at: Timestamp)
    | EmitReject(reject: Reject, at: Timestamp)
    | Mint

  /** How one dispatch attempt ended. */
  datatype Attempt =
    | Done(acts: seq<Act>)
    | Unexpected(message: string, acts: seq<Act>)
    | Refused(rejectionType: RejectionType, reason: string, acts: seq<Act>)

  function RecordOf(c: int, act: Act): (r: seq<Entry>)
    ensures |r| <= 1
  {
    match act
    case EmitEvent(event, at) => [Entry(NIL_ID, NIL_ID, Some(c), at, EventPayload(event))]
    case EmitCommand(command, at) => [Entry(NIL_ID, NIL_ID, Some(c), at, CommandPayload(command))]
    case EmitReject(reject, at) => [Entry(NIL_ID, NIL_ID, Some(c), at, RejectPayload(reject))]
    case Mint => []
  }

  /** The records the first `n` acts emit. */
  function RecordsTo(c: int, acts: seq<Act>, n: nat): seq<Entry>
    requires n <= |acts|
  {
    if n == 0 then [] else RecordsTo(c, acts, n - 1) + RecordOf(c, acts[n - 1])
  }

  function Records(c: int, acts: seq<Act>): seq<Entry> { RecordsTo(c, acts, |acts|) }

  /** The entry is what this act emits for the Command at `c`. */
  ghost predicate Emits(act: Act, c: int, e: Entry)
  {
    && e.cause == Some(c) && !act.Mint? && e.timestamp == act.at
    && match act
       case EmitEvent(event, _) => e.payload == EventPayload(event)
       case EmitCommand(command, _) => e.payload == CommandPayload(command)
       case EmitReject(reject, _) => e.payload == RejectPayload(reject)
       case Mint => false
  }

  /** One record for each of the first `n` acts but the mints, in their order. */
  ghost predicate ListsRecords(c: int, acts: seq<Act>, n: int, records: seq<Entry>, idx: seq<int>)
    requires n <= |acts|
  {
    && Rising(idx, 0, n) && |idx| == |records|
    && (forall k | 0 <= k < |idx| :: Emits(acts[idx[k]], c, records[k]))
    && (forall i | 0 <= i < n && !acts[i].Mint? :: i in idx)
  }

  lemma RecordsOneMore(c: int, acts: seq<Act>, n: nat, records: seq<Entry>, idx: seq<int>) returns (more: seq<int>)
    requires 0 < n <= |acts| && ListsRecords(c, acts, n - 1, records, idx)
    ensures ListsRecords(c, acts, n, records + RecordOf(c, acts[n - 1]), more)
  {
    more := idx;
    if !acts[n - 1].Mint? {
      more := idx + [n - 1];
      RisingSnoc(idx, 0, n);
      assert Emits(acts[n - 1], c, RecordOf(c, acts[n - 1])[0]);
      forall i | 0 <= i < n - 1 && !acts[i].Mint? ensures i in more {
        assert i in idx;
      }
    }
  }

  /** Every record has the payload and the stamp of its own act, and every act but a mint has its record. */
  lemma {:induction false} RecordsExact(c: int, acts: seq<Act>, n: nat) returns (idx: seq<int>)
    requires n <= |acts|
    ensures ListsRecords(c, acts, n, RecordsTo(c, acts, n), idx)
  {
    idx := [];
    if n > 0 {
      idx := RecordsExact(c, acts, n - 1);
      idx := RecordsOneMore(c, acts, n, RecordsTo(c, acts, n - 1), idx);
    }
  }

  /** The counter after the first `n` acts: a mint advances it, an emitted create event raises it. */
  function SeqTo(acts: seq<Act>, seqNo: nat, n: nat): nat
    requires n <= |acts|
  {
    if n == 0 then seqNo
    else
      var before := SeqTo(acts, seqNo, n - 1);
      match acts[n - 1]
      case Mint => before + 1
      case EmitEvent(event, _) => Raise(before, event)
      case _ => before
  }

  function SeqAfter(acts: seq<Act>, seqNo: nat): nat { SeqTo(acts, seqNo, |acts|) }

  lemma {:induction false} SeqRises(acts: seq<Act>, seqNo: nat, m: nat, n: nat)
    requires m <= n <= |acts|
    ensures SeqTo(acts, seqNo, m) <= SeqTo(acts, seqNo, n)
    decreases n
  {
    if m < n { SeqRises(acts, seqNo, m, n - 1); }
  }

  /** When a dispatch ends, the counter has passed every suffix its records create. */
  lemma {:induction false} SeqCovers(c: int, acts: seq<Act>, seqNo: nat, n: nat)
    requires n <= |acts|
    ensures Covers(SeqTo(acts, seqNo, n), RecordsTo(c, acts, n), |RecordsTo(c, acts, n)|)
  {
    if n > 0 {
      SeqCovers(c, acts, seqNo, n - 1);
      SeqRises(acts, seqNo, n - 1, n);
    }
  }

  /** Whatever a handler emits is a batch of its Command: every record carries the cause and none is a Noop. */
  lemma {:induction false} RecordsAreBatch(c: int, acts: seq<Act>, n: nat)
    requires n <= |acts|
    ensures forall k | 0 <= k < |RecordsTo(c, acts, n)| ::
      RecordsTo(c, acts, n)[k].cause == Some(c) && !RecordsTo(c, acts, n)[k].IsNoop()
  {
    if n > 0 { RecordsAreBatch(c, acts, n - 1); }
  }

  /** The collector of one dispatch: each event is folded into the overlay as it is emitted. */
  class Collector {
    const causeId: int
    var entries: seq<Entry>
    var work: Work
    ghost const base: Work
    ghost const ap: Applier

    ghost predicate Valid()
      reads this
    {
      && work.projection == Fold(ap, base.projection, entries)
      && forall k | 0 <= k < |entries| :: entries[k].cause == Some(causeId) && !entries[k].IsNoop()
    }

    constructor (ap: Applier, causeId: int, base: Work)
      ensures Valid() && entries == [] && work == base
      ensures this.causeId == causeId && this.base == base && this.ap == ap
    {
      this.causeId, this.base, this.ap := causeId, base, ap;
      entries, work := [], base;
    }

    method Perform(ap: Applier, act: Act)
      requires Valid() && ap == this.ap
      modifies this
      ensures Valid() && entries == old(entries) + RecordOf(causeId, act)
      ensures work.nextSeq == SeqTo([act], old(work.nextSeq), 1)
    {
      var record := RecordOf(causeId, act);
      FoldPrefix(ap, base.projection, entries, entries + record, |entries|);
      match act {
        case EmitEvent(event, at) => work := Work(ap(work.projection, event, at), Raise(work.nextSeq, event));
        case Mint => work := work.(nextSeq := work.nextSeq + 1);
        case _ =>
      }
      entries := entries + record;
    }
  }

  /** One attempt over a fresh overlay of the committed state; the attempt's overlay is returned, not committed. */
  method DispatchOnce(ap: Applier, storage: Storage, c: int, acts: seq<Act>) returns (entries: seq<Entry>, work: Work)
    ensures entries == Records(c, acts)
    ensures forall k | 0 <= k < |entries| :: entries[k].cause == Some(c) && !entries[k].IsNoop()
    ensures work == Work(Fold(ap, storage.projection, entries), SeqAfter(acts, storage.nextSeq))
  {
    var collector := new Collector(ap, c, Work(storage.projection, storage.nextSeq));
    var i := 0;
    while i < |acts|
      invariant 0 <= i <= |acts| && collector.Valid()
      invariant collector.base == Work(storage.projection, storage.nextSeq) && collector.ap == ap &&
        collector.causeId == c
      invariant collector.entries == RecordsTo(c, acts, i)
      invariant collector.work.nextSeq == SeqTo(acts, storage.nextSeq, i)
    {
      collector.Perform(ap, acts[i]);
      i := i + 1;
    }
    entries, work := collector.entries, collector.work;
  }

  // ---------- The retry policy ----------

  const MAX_COMMAND_ATTEMPTS: nat := 3

  /** How the k-th dispatch of a Command at a position would end, given the committed state it reads. */
  type Handler = (Projection, nat, int, Command, nat) -> Attempt

  /** The attempts at one Command. */
  function Tries(handler: Handler, p: Projection, seqNo: nat, c: int, command: Command): (attempts: nat -> Attempt)
    ensures forall k: nat :: attempts(k) == handler(p, seqNo, c, command, k)
  {
    (k: nat) => handler(p, seqNo, c, command, k)
  }

  /** The k-th attempt is the one that counts: every one before it failed unexpectedly, and so may only the last. */
  ghost predicate Final(attempts: nat -> Attempt, k: nat)
  {
    && 1 <= k <= 3
    && (forall j | 1 <= j < k :: attempts(j).Unexpected?)
    && (attempts(k).Unexpected? ==> k == 3)
  }

  /** The Reject answers this Command, under the id its caller awaits or the nil one, for this attempt's reason. */
  ghost predicate Refuses(reject: Reject, command: Command, attempt: Attempt)
  {
    && (match command.requestId
        case Some(id) => reject.requestId == id
        case None => reject.requestId == NIL_REQUEST)
    && match attempt
       case Done(_) => false
       case Refused(rejectionType, reason, _) => reject.rejectionType == rejectionType && reject.reason == reason
       case Unexpected(message, _) =>
         reject.rejectionType == ProcessingError && reject.reason == "dispatch failed on all 3 attempts: " + message
  }

  /** The batch is what a Command at `c` is answered with when this attempt counts. */
  ghost predicate Answer(c: int, command: Command, attempt: Attempt, batch: seq<Entry>)
  {
    if attempt.Done? then batch == Records(c, attempt.acts)
    else
      && |batch| == 1 && batch[0].cause == Some(c) && batch[0].IsReject()
      && Refuses(batch[0].payload.reject, command, attempt)
  }

  function RequestOf(command: Command): RequestId
  {
    if command.requestId.Some? then command.requestId.value else NIL_REQUEST
  }

  /** The single Reject a Command that produced no outcome is answered with. */
  function RefusalFor(command: Command, attempt: Attempt): Reject
    requires !attempt.Done?
  {
    match attempt
    case Refused(rejectionType, reason, _) => Reject(RequestOf(command), rejectionType, reason)
    case Unexpected(message, _) =>
      Reject(RequestOf(command), ProcessingError, "dispatch failed on all 3 attempts: " + message)
  }

  /**
   * `process_command`. `attempts(k)` is how the k-th dispatch of this Command would end. Exactly the
   * attempts up to the first that is not an unexpected failure, or up to the budget, are made; the
   * outcome is that attempt's own batch and overlay, or one Reject on a fresh overlay.
   */
  method ProcessCommand(ap: Applier, leader: Leader, storage: Storage, c: int, command: Command,
                        attempts: nat -> Attempt, at: Timestamp)
    returns (entries: seq<Entry>, work: Work, made: nat)
    requires forall k :: attempts(k).Done? ==> Records(c, attempts(k).acts) != []
    modifies leader`lastApplied
    ensures Final(attempts, made) && Answer(c, command, attempts(made), entries)
    ensures work.nextSeq >= storage.nextSeq && Covers(work.nextSeq, entries, |entries|)
    ensures BatchOf(entries, c) && work.projection == Fold(ap, storage.projection, entries)
    ensures attempts(made).Done? ==>
      && work.nextSeq == SeqAfter(attempts(made).acts, storage.nextSeq)
      && leader.lastApplied == Events(entries)
    ensures !attempts(made).Done? ==>
      && entries == RefusalOf(c, RefusalFor(command, attempts(made)), at)
      && work == Work(storage.projection, storage.nextSeq)
      && leader.lastApplied == old(leader.lastApplied)
  {
    made := 1;
    while true
      invariant 1 <= made <= MAX_COMMAND_ATTEMPTS
      invariant forall k | 1 <= k < made :: attempts(k).Unexpected?
      invariant leader.lastApplied == old(leader.lastApplied)
      decreases MAX_COMMAND_ATTEMPTS - made
    {
      var attempt := attempts(made);
      entries, work := DispatchOnce(ap, storage, c, attempt.acts);
      if attempt.Done? {
        leader.lastApplied := Events(entries);
        SeqCovers(c, attempt.acts, storage.nextSeq, |attempt.acts|);
        SeqRises(attempt.acts, storage.nextSeq, 0, |attempt.acts|);
        return;
      } else if attempt.Unexpected? && made < MAX_COMMAND_ATTEMPTS {
        made := made + 1;
      } else {
        entries := RefusalOf(c, RefusalFor(command, attempt), at);
        work := Work(storage.projection, storage.nextSeq);
        FoldQuiet(ap, storage.projection, entries, 0, 1);
        return;
      }
    }
  }
}
