/** The stream processor: recovery, the leader's loop and the follower's loop, each refining the step system. */
module Driver {
  import opened Entries
  import opened Protocol
  import opened Counter
  import opened Minting
  import opened Readback
  import opened Guarantees
  import opened Logs
  import opened Dispatching
  import opened Answering

  // ---------- What is durable, and what a read-back holds ----------

  ghost predicate Durable(c: Counted, log: MemoryLog, storage: Storage)
    reads log, storage
  {
    && c.s.stream == log.streamId && c.s.log == log.entries
    && c.s.store == storage.projection && c.s.w == storage.position && c.leader.seqNo == storage.nextSeq
  }

  function HeldProjection(inflight: Option<Work>): Option<Projection>
  {
    if inflight.Some? then Some(inflight.value.projection) else None
  }

  ghost function CellOf(storage: Storage, inflight: Option<Work>): Cell
    reads storage
  {
    Cell(storage.projection, storage.position, HeldProjection(inflight))
  }

  ghost function SeqOf(storage: Storage, inflight: Option<Work>): SeqCell
    reads storage
  {
    SeqCell(storage.nextSeq, if inflight.Some? then Some(inflight.value.nextSeq) else None)
  }

  /** One entry read back: an Event folds into the held transaction, rows and counter alike; a Noop commits it. */
  method FoldEntry(ap: Applier, storage: Storage, inflight: Option<Work>, entry: Entry, pos: nat)
    returns (held: Option<Work>)
    modifies storage
    ensures CellOf(storage, held) == Absorb(ap, old(CellOf(storage, inflight)), entry, pos)
    ensures SeqOf(storage, held) == AbsorbSeq(old(SeqOf(storage, inflight)), entry)
  {
    held := inflight;
    match entry.payload {
      case EventPayload(event) =>
        if held.None? { held := Some(Work(storage.projection, storage.nextSeq)); }
        held := Some(Work(ap(held.value.projection, event, entry.timestamp), Raise(held.value.nextSeq, event)));
      case Noop =>
        if held.Some? {
          storage.Commit(held.value, pos);
          held := None;
        }
      case CommandPayload(_) =>
      case RejectPayload(_) =>
    }
  }

  /** What a read-back of positions w+1..=n from (p, q) leaves in storage, whatever batch is still open dropped. */
  ghost predicate IsReadBack(ap: Applier, p: Projection, q: nat, w: nat, log: seq<Entry>, n: nat, storage: Storage)
    requires w <= n <= |log|
    reads storage
  {
    && IsResume(log, w, n, storage.position) && storage.position <= n
    && storage.projection == AbsorbAll(ap, Cell(p, w, None), log, w, n).store
    && (forall p0 | p == FoldTo(ap, p0, log, w) :: storage.projection == FoldTo(ap, p0, log, storage.position))
    && storage.nextSeq == RaisedIn(q, log, w, storage.position)
  }

  lemma ReadBackHolds(ap: Applier, p: Projection, q: nat, w: nat, log: seq<Entry>, n: nat, storage: Storage)
    requires w <= n <= |log|
    requires storage.projection == AbsorbAll(ap, Cell(p, w, None), log, w, n).store
    requires storage.position == AbsorbAll(ap, Cell(p, w, None), log, w, n).w
    requires storage.nextSeq == AbsorbSeqAll(SeqCell(q, None), log, w, n).seqNo
    ensures IsReadBack(ap, p, q, w, log, n, storage)
  {
    ResumesExactly(ap, p, log, w, n);
    SeqReadbackExact(ap, p, q, log, w, n);
    forall p0 | p == FoldTo(ap, p0, log, w) ensures storage.projection == FoldTo(ap, p0, log, storage.position) {
      ReadbackExact(ap, p0, log, w, n);
    }
  }

  // ---------- Clients ----------

  /** A client's Command reaching the log, with the stamps it and its closing Noop carry. */
  datatype Arrival = Arrival(command: Command, at: Timestamp, noopAt: Timestamp)

  function Appends(arrivals: seq<Arrival>): seq<Move>
  {
    seq(|arrivals|, i requires 0 <= i < |arrivals| =>
      Just(ClientAppend(arrivals[i].command, arrivals[i].at, arrivals[i].noopAt)))
  }

  /** From index `n` on, the log holds exactly these Commands, each with its own stamp, no cause and its own Noop. */
  ghost predicate Logged(log: seq<Entry>, n: nat, arrivals: seq<Arrival>)
  {
    && |log| == n + 2 * |arrivals|
    && forall i | 0 <= i < |arrivals| ::
         && log[n + 2 * i].payload == CommandPayload(arrivals[i].command)
         && log[n + 2 * i].cause == None && log[n + 2 * i].timestamp == arrivals[i].at
         && log[n + 2 * i + 1].IsNoop() && log[n + 2 * i + 1].cause == None
  }

  lemma LoggedOneMore(log: seq<Entry>, n: nat, arrivals: seq<Arrival>, stream: int, a: Arrival)
    requires Logged(log, n, arrivals)
    ensures Logged(AppendTo(stream, log, [ClientEntry(a.command, a.at)], a.noopAt), n, arrivals + [a])
  {
    var closed := Terminated([ClientEntry(a.command, a.at)], a.noopAt);
    assert closed[0] == ClientEntry(a.command, a.at) && |closed| == 2;
  }

  /** `append_command`: one step of the protocol. */
  method ArriveOne(ap: Applier, log: MemoryLog, a: Arrival, ghost c: Counted, ghost n: nat, ghost before: seq<Arrival>)
    requires log.Valid() && c.s.stream == log.streamId && c.s.log == log.entries && Logged(log.entries, n, before)
    modifies log
    ensures log.Valid() && old(log.entries) <= log.entries && Logged(log.entries, n, before + [a])
    ensures Moved(ap, c, Just(ClientAppend(a.command, a.at, a.noopAt))) == c.(s := c.s.(log := log.entries))
  {
    var _ := AppendTerminated(log, [ClientEntry(a.command, a.at)], a.noopAt);
    LoggedOneMore(old(log.entries), n, before, log.streamId, a);
  }

  /** Each client that gets to the log at this point of the driver's work. */
  method Arrive(ap: Applier, log: MemoryLog, arrivals: seq<Arrival>, ghost c: Counted)
    requires log.Valid() && c.s.stream == log.streamId && c.s.log == log.entries
    modifies log
    ensures log.Valid() && old(log.entries) <= log.entries && Logged(log.entries, old(|log.entries|), arrivals)
    ensures IsPath(ap, c, Appends(arrivals)) && Arrived(ap, c, Appends(arrivals)) == c.(s := c.s.(log := log.entries))
    ensures NoDispatch(Appends(arrivals))
  {
    for i := 0 to |arrivals|
      invariant log.Valid() && old(log.entries) <= log.entries && Logged(log.entries, old(|log.entries|), arrivals[..i])
      invariant IsPath(ap, c, Appends(arrivals[..i]))
      invariant Arrived(ap, c, Appends(arrivals[..i])) == c.(s := c.s.(log := log.entries))
    {
      var a := arrivals[i];
      ghost var m := Just(ClientAppend(a.command, a.at, a.noopAt));
      assert arrivals[..i + 1] == arrivals[..i] + [a];
      assert Appends(arrivals[..i + 1]) == Appends(arrivals[..i]) + [m];
      PathSnoc(ap, c, Appends(arrivals[..i]), m);
      ArriveOne(ap, log, a, Arrived(ap, c, Appends(arrivals[..i])), old(|log.entries|), arrivals[..i]);
    }
    assert arrivals[..|arrivals|] == arrivals;
  }

  // ---------- Recovery ----------

  /** The objects show a recovery that booted from `c` and is about to read `pos`. */
  ghost predicate ShowsRecovering(c: Counted, d: Counted, leader: Leader, log: MemoryLog, storage: Storage, pos: nat,
                                  inflight: Option<Work>)
    reads leader, log, storage
  {
    && log.Valid() && c.s.log <= log.entries
    && d == c.(leader := SeqOf(storage, inflight),
               s := c.s.(log := log.entries, store := storage.projection, w := storage.position,
                         role := Recovering(c.s.w, pos, HeldProjection(inflight), leader.lastApplied)))
  }

  /** The objects show a leader whose recovery from `c` is done, about to read right above the watermark. */
  ghost predicate ShowsRecovered(c: Counted, d: Counted, leader: Leader, log: MemoryLog, storage: Storage)
    reads leader, log, storage
  {
    && log.Valid() && d.leader.seqNo == storage.nextSeq
    && d.s == c.s.(log := log.entries, store := storage.projection, w := storage.position,
                   role := Live(c.s.w, storage.position, storage.position + 1, storage.position, leader.lastApplied,
                                Reading, Trace(leader.lastApplied, false, [], [], [], [])))
  }

  /** The read-back so far, against the log as it now is. */
  ghost predicate Absorbed(ap: Applier, p: Projection, q: nat, w: nat, log: seq<Entry>, n: nat, cell: Cell,
                           seqCell: SeqCell)
  {
    && w <= n <= |log|
    && cell == AbsorbAll(ap, Cell(p, w, None), log, w, n) && seqCell == AbsorbSeqAll(SeqCell(q, None), log, w, n)
  }

  lemma AbsorbedGrows(ap: Applier, p: Projection, q: nat, w: nat, log: seq<Entry>, longer: seq<Entry>, n: nat,
                      cell: Cell, seqCell: SeqCell)
    requires Absorbed(ap, p, q, w, log, n, cell, seqCell) && log <= longer
    ensures Absorbed(ap, p, q, w, longer, n, cell, seqCell)
  {
    AbsorbPrefix(ap, Cell(p, w, None), log, longer, w, n);
    AbsorbSeqPrefix(SeqCell(q, None), log, longer, w, n);
  }

  /** A recovery from `c` that has come as far as `pos` by these moves, dispatching nothing. */
  ghost predicate PassAt(ap: Applier, c: Counted, moves: seq<Move>, leader: Leader, log: MemoryLog, storage: Storage,
                         pos: nat, inflight: Option<Work>)
    reads leader, log, storage
  {
    && 1 <= pos && IsPath(ap, c, moves) && NoDispatch(moves)
    && ShowsRecovering(c, Arrived(ap, c, moves), leader, log, storage, pos, inflight)
    && Absorbed(ap, c.s.store, c.leader.seqNo, c.s.w, log.entries, pos - 1, CellOf(storage, inflight),
         SeqOf(storage, inflight))
  }

  lemma BootPass(ap: Applier, leader: Leader, log: MemoryLog, storage: Storage, c: Counted)
    requires log.Valid() && c.s.role.Down? && Durable(c, log, storage) && c.leader.held.None? && c.s.w <= |c.s.log|
    requires leader.lastApplied == []
    ensures PassAt(ap, c, [] + [Just(Boot)], leader, log, storage, storage.position + 1, None)
  {
    PathSnoc(ap, c, [], Just(Boot));
  }

  /** Clients append between two reads. */
  method RecoverArrive(ap: Applier, leader: Leader, log: MemoryLog, storage: Storage, arrivals: seq<Arrival>, pos: nat,
                       inflight: Option<Work>, ghost c: Counted, ghost before: seq<Move>)
    returns (ghost moves: seq<Move>)
    requires PassAt(ap, c, before, leader, log, storage, pos, inflight) && c.s.stream == log.streamId
    modifies log
    ensures PassAt(ap, c, moves, leader, log, storage, pos, inflight) && old(log.entries) <= log.entries
  {
    Arrive(ap, log, arrivals, Arrived(ap, c, before));
    PathConcat(ap, c, before, Appends(arrivals));
    moves := before + Appends(arrivals);
    AbsorbedGrows(ap, c.s.store, c.leader.seqNo, c.s.w, old(log.entries), log.entries, pos - 1,
                  CellOf(storage, inflight), SeqOf(storage, inflight));
  }

  /** One read of the recovery loop, on an entry the log has. */
  method RecoverEntry(ap: Applier, leader: Leader, log: MemoryLog, storage: Storage, entry: Entry, pos: nat,
                      inflight: Option<Work>, ghost c: Counted, ghost before: seq<Move>)
    returns (held: Option<Work>)
    requires PassAt(ap, c, before, leader, log, storage, pos, inflight)
    requires pos <= |log.entries| && entry == log.entries[pos - 1]
    modifies leader, storage
    ensures PassAt(ap, c, before + [Just(RecoverRead)], leader, log, storage, pos + 1, held)
  {
    PathSnoc(ap, c, before, Just(RecoverRead));
    held := FoldEntry(ap, storage, inflight, entry, pos);
    if entry.IsEvent() {
      if entry.cause.Some? && entry.cause.value > leader.watermark { leader.watermark := entry.cause.value; }
      leader.lastApplied := [entry.payload.event];
    }
  }

  /** At the tail, the leader goes live right above what storage committed. */
  lemma PassLive(ap: Applier, c: Counted, moves: seq<Move>, leader: Leader, log: MemoryLog, storage: Storage, pos: nat,
                 inflight: Option<Work>)
    requires PassAt(ap, c, moves, leader, log, storage, pos, inflight) && pos > |log.entries|
    ensures IsPath(ap, c, moves + [Just(RecoverDone)]) && NoDispatch(moves + [Just(RecoverDone)])
    ensures ShowsRecovered(c, Arrived(ap, c, moves + [Just(RecoverDone)]), leader, log, storage)
    ensures IsReadBack(ap, c.s.store, c.leader.seqNo, c.s.w, log.entries, |log.entries|, storage)
  {
    PathSnoc(ap, c, moves, Just(RecoverDone));
    ReadBackHolds(ap, c.s.store, c.leader.seqNo, c.s.w, log.entries, |log.entries|, storage);
  }

  /**
   * `recover_leader`: one pass from the watermark to the durable tail, with clients appending between any
   * two reads. It is a run of the protocol that dispatches nothing; storage ends with exactly the fold up to
   * the last Noop closing an Event, the counter raised by exactly those Events; and that Noop is the position
   * returned.
   */
  method RecoverLeader(ap: Applier, leader: Leader, log: MemoryLog, storage: Storage, arrivals: seq<seq<Arrival>>,
                       ghost c: Counted)
    returns (w: nat, ghost moves: seq<Move>)
    requires log.Valid() && c.s.role.Down? && Durable(c, log, storage) && c.leader.held.None? && c.s.w <= |c.s.log|
    requires leader.lastApplied == []
    modifies leader, log, storage
    ensures log.Valid() && old(log.entries) <= log.entries && w == storage.position
    ensures IsReadBack(ap, old(storage.projection), old(storage.nextSeq), old(storage.position), log.entries,
      |log.entries|, storage)
    ensures IsPath(ap, c, moves) && NoDispatch(moves)
    ensures ShowsRecovered(c, Arrived(ap, c, moves), leader, log, storage)
  {
    var pos: nat := storage.position + 1;
    var inflight: Option<Work> := None;
    var j := 0;
    BootPass(ap, leader, log, storage, c);
    moves := [] + [Just(Boot)];
    while true
      invariant j <= |arrivals| && PassAt(ap, c, moves, leader, log, storage, pos, inflight)
      invariant old(log.entries) <= log.entries
      decreases |arrivals| - j, |log.entries| + 1 - pos
    {
      if j < |arrivals| {
        moves := RecoverArrive(ap, leader, log, storage, arrivals[j], pos, inflight, c, moves);
        j := j + 1;
      }
      var read := log.Read(pos);
      if read.None? { break; }
      inflight := RecoverEntry(ap, leader, log, storage, read.value, pos, inflight, c, moves);
      moves := moves + [Just(RecoverRead)];
      pos := pos + 1;
    }
    w := storage.position;
    PassLive(ap, c, moves, leader, log, storage, pos, inflight);
    moves := moves + [Just(RecoverDone)];
  }

  // ---------- The follower ----------

  class Follower {
    var watermark: int

    constructor ()
      ensures watermark == 0
    {
      watermark := 0;
    }
  }

  /** The objects show a follower that booted from `c` and is about to read `next`. */
  ghost predicate ShowsFollowing(c: Counted, d: Counted, follower: Follower, log: MemoryLog, storage: Storage,
                                 next: nat, inflight: Option<Work>)
    reads follower, log, storage
  {
    && log.Valid() && c.s.log <= log.entries && follower.watermark == storage.position
    && d == c.(replica := SeqOf(storage, inflight),
               s := c.s.(log := log.entries, replicaStore := storage.projection, replicaW := storage.position,
                         replica := Tailing(next, HeldProjection(inflight))))
  }

  ghost predicate FollowAt(ap: Applier, c: Counted, moves: seq<Move>, follower: Follower, log: MemoryLog,
                           storage: Storage, next: nat, inflight: Option<Work>)
    reads follower, log, storage
  {
    && 1 <= next && IsPath(ap, c, moves) && NoDispatch(moves)
    && ShowsFollowing(c, Arrived(ap, c, moves), follower, log, storage, next, inflight)
    && Absorbed(ap, c.s.replicaStore, c.replica.seqNo, c.s.replicaW, log.entries, next - 1, CellOf(storage, inflight),
         SeqOf(storage, inflight))
  }

  /** The log grows while the follower tails it. */
  method FollowArrive(ap: Applier, follower: Follower, log: MemoryLog, storage: Storage, arrivals: seq<Arrival>,
                      next: nat, inflight: Option<Work>, ghost c: Counted, ghost before: seq<Move>)
    returns (ghost moves: seq<Move>)
    requires FollowAt(ap, c, before, follower, log, storage, next, inflight) && c.s.stream == log.streamId
    modifies log
    ensures FollowAt(ap, c, moves, follower, log, storage, next, inflight) && old(log.entries) <= log.entries
  {
    Arrive(ap, log, arrivals, Arrived(ap, c, before));
    PathConcat(ap, c, before, Appends(arrivals));
    moves := before + Appends(arrivals);
    AbsorbedGrows(ap, c.s.replicaStore, c.replica.seqNo, c.s.replicaW, old(log.entries), log.entries, next - 1,
                  CellOf(storage, inflight), SeqOf(storage, inflight));
  }

  /** One read of the follower's loop. */
  method FollowEntry(ap: Applier, follower: Follower, log: MemoryLog, storage: Storage, next: nat,
                     inflight: Option<Work>, ghost c: Counted, ghost before: seq<Move>)
    returns (held: Option<Work>)
    requires FollowAt(ap, c, before, follower, log, storage, next, inflight) && next <= |log.entries|
    modifies follower, storage
    ensures FollowAt(ap, c, before + [Just(ReplicaRead)], follower, log, storage, next + 1, held)
  {
    PathSnoc(ap, c, before, Just(ReplicaRead));
    var entry := log.entries[next - 1];
    var closes := entry.IsNoop() && inflight.Some?;
    held := FoldEntry(ap, storage, inflight, entry, next);
    if closes { follower.watermark := next; }
  }

  /**
   * `run_follower`, cancelled after as many iterations as `arrivals` is long, with the log growing before each:
   * a run of the protocol's follower, leaving in storage what a recovery pass over what it read would.
   */
  method RunFollower(ap: Applier, follower: Follower, log: MemoryLog, storage: Storage, arrivals: seq<seq<Arrival>>,
                     ghost c: Counted)
    returns (next: nat, ghost moves: seq<Move>)
    requires log.Valid() && c.s.stream == log.streamId && c.s.log == log.entries && storage.position <= |log.entries|
    requires c.s.replica.ReplicaDown? && c.s.replicaStore == storage.projection && c.s.replicaW == storage.position
    requires c.replica == SeqCell(storage.nextSeq, None)
    modifies follower, log, storage
    ensures old(log.entries) <= log.entries && old(storage.position) < next <= |log.entries| + 1
    ensures IsReadBack(ap, old(storage.projection), old(storage.nextSeq), old(storage.position), log.entries, next - 1,
      storage)
    ensures IsPath(ap, c, moves) && NoDispatch(moves)
    ensures exists inflight :: ShowsFollowing(c, Arrived(ap, c, moves), follower, log, storage, next, inflight)
  {
    follower.watermark := storage.position;
    next := storage.position + 1;
    var inflight: Option<Work> := None;
    moves := [] + [Just(ReplicaBoot)];
    PathSnoc(ap, c, [], Just(ReplicaBoot));
    for j := 0 to |arrivals|
      invariant FollowAt(ap, c, moves, follower, log, storage, next, inflight) && c.s.replicaW < next
    {
      moves := FollowArrive(ap, follower, log, storage, arrivals[j], next, inflight, c, moves);
      if next <= |log.entries| {
        inflight := FollowEntry(ap, follower, log, storage, next, inflight, c, moves);
        moves := moves + [Just(ReplicaRead)];
        next := next + 1;
      }
    }
    ReadBackHolds(ap, c.s.replicaStore, c.replica.seqNo, c.s.replicaW, log.entries, next - 1, storage);
  }

  // ---------- The leader's loop ----------

  class Hook {
    var applied: seq<Event>
    var rejected: seq<Reject>

    constructor ()
      ensures applied == [] && rejected == []
    {
      applied, rejected := [], [];
    }
  }

  /** Dispatch panics on a Command answered with nothing, so a finished attempt has emitted something. */
  ghost predicate Answers(handler: Handler)
  {
    forall p, seqNo, c, command, k :: handler(p, seqNo, c, command, k).Done? ==>
      Records(c, handler(p, seqNo, c, command, k).acts) != []
  }

  /** The objects show the live state `c`, at whatever stage of a Command's treatment. */
  ghost predicate ShowsLive(c: Counted, leader: Leader, log: MemoryLog, storage: Storage, hook: Hook)
    reads leader, log, storage, hook
  {
    && Durable(c, log, storage) && log.Valid()
    && c.s.role.Live? && c.s.role.lastApplied == leader.lastApplied
    && c.s.role.trace.reported == hook.applied && c.s.role.trace.refused == hook.rejected
  }

  /** The objects show `c` at the top of the loop, with `cursor` next to be read. */
  ghost predicate Shows(c: Counted, leader: Leader, log: MemoryLog, storage: Storage, hook: Hook, cursor: nat)
    reads leader, log, storage, hook
  {
    && ShowsLive(c, leader, log, storage, hook)
    && c.s.role.stage.Reading? && c.s.role.cursor == cursor && c.s.role.watermark == leader.watermark
  }

  /** `after_commit`: the Events just committed are reported, and forgotten. */
  method AfterCommit(leader: Leader, hook: Hook)
    modifies leader`lastApplied, hook`applied
    ensures leader.lastApplied == [] && hook.applied == old(hook.applied) + old(leader.lastApplied)
  {
    var applied := leader.lastApplied;
    leader.lastApplied := [];
    for i := 0 to |applied|
      invariant hook.applied == old(hook.applied) + applied[..i]
      invariant leader.lastApplied == []
    {
      hook.applied := hook.applied + [applied[i]];
    }
  }

  method ReportRejects(hook: Hook, entries: seq<Entry>)
    modifies hook`rejected
    ensures hook.rejected == old(hook.rejected) + Rejects(entries)
  {
    for i := 0 to |entries|
      invariant hook.rejected == old(hook.rejected) + RejectsTo(entries, i)
    {
      if entries[i].IsReject() { hook.rejected := hook.rejected + [entries[i].payload.reject]; }
    }
  }

  // One method per stage of the Command arm. Each demands that the stage before it is complete.

  /** The batch is the handler's answer, on the committed state, to the Command under the cursor. */
  method Dispatch(ap: Applier, leader: Leader, log: MemoryLog, storage: Storage, hook: Hook,
                  cursor: nat, handler: Handler, at: Timestamp, ghost c: Counted)
    returns (batch: seq<Entry>, work: Work, ghost first: Move)
    requires Shows(c, leader, log, storage, hook, cursor) && Answers(handler)
    requires 1 <= cursor <= |log.entries| && log.entries[cursor - 1].IsCommand()
    modifies leader`lastApplied
    ensures var command := log.entries[cursor - 1].payload.command;
      IsAnswer(handler, storage.projection, storage.nextSeq, cursor, command, batch)
    ensures CanMove(c, first) && HandledMove(handler, c, first)
    ensures ShowsLive(Moved(ap, c, first), leader, log, storage, hook)
    ensures var r := Moved(ap, c, first).s.role; r.cursor == cursor && r.stage == Dispatched(batch, work.projection)
    ensures Moved(ap, c, first).leader.held == Some(work.nextSeq)
  {
    var command := log.entries[cursor - 1].payload.command;
    var attempts := Tries(handler, storage.projection, storage.nextSeq, cursor, command);
    var made: nat;
    batch, work, made := ProcessCommand(ap, leader, storage, cursor, command, attempts, at);
    first := if attempts(made).Done? then Move(Produce(batch), attempts(made).acts)
             else Just(Refuse(batch[0].payload.reject, at));
    assert HandledBy(handler, c, first, made);
  }

  method AppendProduced(ap: Applier, leader: Leader, log: MemoryLog, storage: Storage, hook: Hook,
                        cursor: nat, batch: seq<Entry>, at: Timestamp, ghost c: Counted)
    returns (last: nat)
    requires ShowsLive(c, leader, log, storage, hook)
    requires c.s.role.cursor == cursor && c.s.role.stage.Dispatched? && c.s.role.stage.batch == batch
    modifies log
    ensures ShowsLive(Moved(ap, c, Just(AppendBatch(at))), leader, log, storage, hook)
    ensures Moved(ap, c, Just(AppendBatch(at))).leader == c.leader
    ensures Moved(ap, c, Just(AppendBatch(at))).s.role ==
      c.s.role.(stage := Appended(batch, c.s.role.stage.work, last))
    ensures last == |log.entries| == old(|log.entries|) + |batch| + 1 && old(log.entries) <= log.entries
    ensures forall k | 0 <= k < |batch| ::
      batch[k] == log.entries[old(|log.entries|) + k].(streamId := batch[k].streamId, entryId := batch[k].entryId)
    ensures log.entries[last - 1] == Entry(log.streamId, last, Some(cursor), at, Noop)
  {
    last := AppendTerminated(log, batch + [NoopOf(cursor, at)], at);
  }

  method CommitProduced(ap: Applier, leader: Leader, log: MemoryLog, storage: Storage, hook: Hook,
                        work: Work, last: nat, ghost c: Counted)
    requires ShowsLive(c, leader, log, storage, hook) && c.leader.held == Some(work.nextSeq)
    requires c.s.role.stage.Appended? && c.s.role.stage.work == work.projection && c.s.role.stage.last == last
    modifies storage
    ensures ShowsLive(Moved(ap, c, Just(Commit)), leader, log, storage, hook)
    ensures Moved(ap, c, Just(Commit)).s.role == c.s.role.(stage := Committed(c.s.role.stage.batch, last))
  {
    storage.Commit(work, last);
  }

  method AnnounceProduced(ap: Applier, leader: Leader, log: MemoryLog, storage: Storage, hook: Hook,
                          batch: seq<Entry>, last: nat, ghost c: Counted)
    requires ShowsLive(c, leader, log, storage, hook) && c.s.role.stage == Committed(batch, last)
    modifies leader, hook
    ensures Shows(Moved(ap, c, Just(Announce)), leader, log, storage, hook, c.s.role.cursor + 1)
    ensures hook.applied == old(hook.applied) + old(leader.lastApplied)
    ensures exists rejects, idx :: hook.rejected == old(hook.rejected) + rejects
                                   && ListsRejects(batch, |batch|, rejects, idx)
  {
    leader.watermark := last;
    AfterCommit(leader, hook);
    ReportRejects(hook, batch);
    ghost var idx := RejectsExact(batch, |batch|);
  }

  /** Who appends before an iteration, and, if it treats a Command, before its append and before its commit. */
  datatype Arrivals = Arrivals(before: seq<Arrival>, dispatched: seq<Arrival>, appended: seq<Arrival>)

  /** Clients append, and then the dispatched batch is. */
  method AppendNext(ap: Applier, leader: Leader, log: MemoryLog, storage: Storage, hook: Hook,
                    cursor: nat, batch: seq<Entry>, at: Timestamp, arrivals: seq<Arrival>, ghost c: Counted)
    returns (last: nat, ghost moves: seq<Move>)
    requires ShowsLive(c, leader, log, storage, hook)
    requires c.s.role.cursor == cursor && c.s.role.stage.Dispatched? && c.s.role.stage.batch == batch
    modifies log
    ensures old(log.entries) <= log.entries && IsPath(ap, c, moves) && NoDispatch(moves)
    ensures ShowsLive(Arrived(ap, c, moves), leader, log, storage, hook)
    ensures Arrived(ap, c, moves).leader == c.leader
    ensures Arrived(ap, c, moves).s.role == c.s.role.(stage := Appended(batch, c.s.role.stage.work, last))
  {
    Arrive(ap, log, arrivals, c);
    moves := Appends(arrivals);
    last := AppendProduced(ap, leader, log, storage, hook, cursor, batch, at, Arrived(ap, c, moves));
    PathSnoc(ap, c, moves, Just(AppendBatch(at)));
    moves := moves + [Just(AppendBatch(at))];
  }

  /** The Command arm's append of a dispatched batch, with clients appending before and after it. */
  method AppendBetween(ap: Applier, leader: Leader, log: MemoryLog, storage: Storage, hook: Hook,
                       cursor: nat, batch: seq<Entry>, at: Timestamp, arrivals: Arrivals, ghost c: Counted)
    returns (last: nat, ghost moves: seq<Move>)
    requires ShowsLive(c, leader, log, storage, hook)
    requires c.s.role.cursor == cursor && c.s.role.stage.Dispatched? && c.s.role.stage.batch == batch
    modifies log
    ensures old(log.entries) <= log.entries && IsPath(ap, c, moves) && NoDispatch(moves)
    ensures ShowsLive(Arrived(ap, c, moves), leader, log, storage, hook)
    ensures Arrived(ap, c, moves).leader == c.leader
    ensures Arrived(ap, c, moves).s.role == c.s.role.(stage := Appended(batch, c.s.role.stage.work, last))
  {
    last, moves := AppendNext(ap, leader, log, storage, hook, cursor, batch, at, arrivals.dispatched, c);
    Arrive(ap, log, arrivals.appended, Arrived(ap, c, moves));
    PathConcat(ap, c, moves, Appends(arrivals.appended));
    moves := moves + Appends(arrivals.appended);
  }

  /** The Command arm up to the durable append. */
  method DispatchAndAppend(ap: Applier, leader: Leader, log: MemoryLog, storage: Storage, hook: Hook,
                           cursor: nat, handler: Handler, at: Timestamp, arrivals: Arrivals, ghost c: Counted)
    returns (batch: seq<Entry>, work: Work, last: nat, ghost moves: seq<Move>)
    requires Shows(c, leader, log, storage, hook, cursor) && Answers(handler)
    requires 1 <= cursor <= |log.entries| && log.entries[cursor - 1].IsCommand()
    modifies leader`lastApplied, log
    ensures old(log.entries) <= log.entries && Handled(ap, handler, c, moves)
    ensures ShowsLive(Arrived(ap, c, moves), leader, log, storage, hook)
    ensures Arrived(ap, c, moves).leader.held == Some(work.nextSeq)
    ensures var r := Arrived(ap, c, moves).s.role;
      r.cursor == cursor && r.stage == Appended(batch, work.projection, last)
  {
    ghost var first: Move;
    batch, work, first := Dispatch(ap, leader, log, storage, hook, cursor, handler, at, c);
    HandledSnoc(ap, handler, c, [], first);
    ghost var more: seq<Move>;
    last, more := AppendBetween(ap, leader, log, storage, hook, cursor, batch, at, arrivals, Moved(ap, c, first));
    HandledOn(ap, handler, c, [] + [first], more);
    moves := ([] + [first]) + more;
  }

  /** The Command arm of `run_leader`: dispatch, append, commit, announce, with clients appending in between. */
  method CommandTurn(ap: Applier, leader: Leader, log: MemoryLog, storage: Storage, hook: Hook,
                     cursor: nat, handler: Handler, at: Timestamp, arrivals: Arrivals, ghost c: Counted)
    returns (ghost moves: seq<Move>)
    requires Shows(c, leader, log, storage, hook, cursor) && Answers(handler)
    requires 1 <= cursor <= |log.entries| && log.entries[cursor - 1].IsCommand()
    modifies leader, log, storage, hook
    ensures Handled(ap, handler, c, moves) && Shows(Arrived(ap, c, moves), leader, log, storage, hook, cursor + 1)
  {
    var batch, work, last, before := DispatchAndAppend(ap, leader, log, storage, hook, cursor, handler, at, arrivals,
      c);
    moves := before;
    CommitProduced(ap, leader, log, storage, hook, work, last, Arrived(ap, c, moves));
    HandledSnoc(ap, handler, c, moves, Just(Commit));
    moves := moves + [Just(Commit)];
    AnnounceProduced(ap, leader, log, storage, hook, batch, last, Arrived(ap, c, moves));
    HandledSnoc(ap, handler, c, moves, Just(Announce));
    moves := moves + [Just(Announce)];
  }

  /** One iteration of `run_leader`: the next entry, if the log has one yet. */
  method LeaderTurn(ap: Applier, leader: Leader, log: MemoryLog, storage: Storage, hook: Hook,
                    cursor: nat, handler: Handler, at: Timestamp, arrivals: Arrivals, ghost c: Counted)
    returns (next: nat, ghost moves: seq<Move>)
    requires Shows(c, leader, log, storage, hook, cursor) && Answers(handler) && 1 <= cursor
    modifies leader, log, storage, hook
    ensures Handled(ap, handler, c, moves) && Shows(Arrived(ap, c, moves), leader, log, storage, hook, next)
    ensures next == if cursor <= old(|log.entries|) then cursor + 1 else cursor
  {
    var read := log.Read(cursor);
    next, moves := cursor, [];
    if read.Some? {
      next := cursor + 1;
      if read.value.IsCommand() {
        moves := CommandTurn(ap, leader, log, storage, hook, cursor, handler, at, arrivals, c);
      } else {
        moves := [] + [Just(Skip)];
        HandledSnoc(ap, handler, c, [], Just(Skip));
      }
    }
  }

  /** `run_leader`, cancelled after as many iterations as `arrivals` is long. */
  method RunLeader(ap: Applier, leader: Leader, log: MemoryLog, storage: Storage, hook: Hook,
                   from: nat, handler: Handler, arrivals: seq<Arrivals>, clock: nat -> Timestamp, ghost c: Counted)
    returns (cursor: nat, ghost moves: seq<Move>)
    requires Shows(c, leader, log, storage, hook, from) && Answers(handler) && 1 <= from
    modifies leader, log, storage, hook
    ensures Handled(ap, handler, c, moves) && Shows(Arrived(ap, c, moves), leader, log, storage, hook, cursor)
  {
    cursor, moves := from, [];
    for i := 0 to |arrivals|
      invariant Handled(ap, handler, c, moves) && 1 <= cursor
      invariant Shows(Arrived(ap, c, moves), leader, log, storage, hook, cursor)
    {
      Arrive(ap, log, arrivals[i].before, Arrived(ap, c, moves));
      HandledOn(ap, handler, c, moves, Appends(arrivals[i].before));
      moves := moves + Appends(arrivals[i].before);
      ghost var more: seq<Move>;
      cursor, more := LeaderTurn(ap, leader, log, storage, hook, cursor, handler, clock(i), arrivals[i],
        Arrived(ap, c, moves));
      HandledConcat(ap, handler, c, moves, more);
      moves := moves + more;
    }
  }

  /** The start of `run` in the leader role: a fresh leader recovers, and will read on right above the watermark. */
  method StartLeader(ap: Applier, log: MemoryLog, storage: Storage, arrivals: seq<seq<Arrival>>, ghost c: Counted)
    returns (leader: Leader, hook: Hook, ghost moves: seq<Move>)
    requires log.Valid() && c.s.role.Down? && Durable(c, log, storage) && c.leader.held.None? && c.s.w <= |c.s.log|
    modifies log, storage
    ensures fresh(leader) && fresh(hook) && old(log.entries) <= log.entries
    ensures IsReadBack(ap, old(storage.projection), old(storage.nextSeq), old(storage.position), log.entries,
      |log.entries|, storage)
    ensures IsPath(ap, c, moves) && NoDispatch(moves)
    ensures Shows(Arrived(ap, c, moves), leader, log, storage, hook, storage.position + 1)
  {
    leader := new Leader();
    hook := new Hook();
    leader.watermark := storage.position;
    var w: nat;
    w, moves := RecoverLeader(ap, leader, log, storage, arrivals, c);
    leader.watermark := w;
  }

  /** Recover, then tail: one incarnation of the leader, from whatever the last one left. */
  method Incarnate(ap: Applier, log: MemoryLog, storage: Storage, handler: Handler, arrivals: seq<Arrivals>,
                   clock: nat -> Timestamp, booting: seq<seq<Arrival>>, ghost c: Counted)
    returns (leader: Leader, hook: Hook, cursor: nat, ghost moves: seq<Move>)
    requires log.Valid() && Answers(handler)
    requires c.s.role.Down? && Durable(c, log, storage) && c.leader.held.None? && c.s.w <= |c.s.log|
    modifies log, storage
    ensures Handled(ap, handler, c, moves) && Shows(Arrived(ap, c, moves), leader, log, storage, hook, cursor)
  {
    ghost var recovery, live: seq<Move>;
    leader, hook, recovery := StartLeader(ap, log, storage, booting, c);
    HandledOn(ap, handler, c, [], recovery);
    assert [] + recovery == recovery;
    cursor, live := RunLeader(ap, leader, log, storage, hook, storage.position + 1, handler, arrivals, clock,
      Arrived(ap, c, recovery));
    HandledConcat(ap, handler, c, recovery, live);
    moves := recovery + live;
  }

  /**
   * `run` in the leader role. Whatever the history that left the log and storage behind, what the driver
   * does to them is a run of the protocol continuing it; so its storage holds the fold of exactly the
   * Events up to the position it committed, and its counter stays ahead of every name they created. Every
   * batch it appended is the handler's answer to the Command its cause names, on the fold of everything
   * before the batch.
   */
  method Run(ap: Applier, log: MemoryLog, storage: Storage, handler: Handler, arrivals: seq<Arrivals>,
             clock: nat -> Timestamp, booting: seq<seq<Arrival>>, ghost p0: Projection, ghost past: seq<Move>)
    returns (leader: Leader, hook: Hook, cursor: nat, ghost moves: seq<Move>)
    requires log.Valid() && Answers(handler)
    requires IsPath(ap, Start(log.streamId, p0), past)
    requires var c := Arrived(ap, Start(log.streamId, p0), past); c.s.role.Down? && Durable(c, log, storage)
    modifies log, storage
    ensures past <= moves && IsPath(ap, Start(log.streamId, p0), moves)
    ensures Shows(Arrived(ap, Start(log.streamId, p0), moves), leader, log, storage, hook, cursor)
    ensures storage.position <= |log.entries| && storage.projection == FoldTo(ap, p0, log.entries, storage.position)
    ensures Covers(storage.nextSeq, log.entries, storage.position)
    ensures AllAnswered(ap, p0, handler, log.entries, old(|log.entries|))
    ensures 1 <= cursor <= |log.entries| && log.entries[cursor - 1].IsEvent() ==> cursor <= leader.watermark
  {
    ghost var c := Arrived(ap, Start(log.streamId, p0), past);
    PathKeepsCounted(ap, p0, Start(log.streamId, p0), past);
    ghost var on: seq<Move>;
    leader, hook, cursor, on := Incarnate(ap, log, storage, handler, arrivals, clock, booting, c);
    moves := past + on;
    Lands(ap, p0, handler, log.streamId, past, on);
  }

  /** What the durable state is after any path. */
  ghost predicate Landed(ap: Applier, p0: Projection, c: Counted)
  {
    && c.s.w <= |c.s.log| && c.s.store == FoldTo(ap, p0, c.s.log, c.s.w) && Covers(c.leader.seqNo, c.s.log, c.s.w)
    && (c.s.role.Live? && c.s.role.stage.Reading? ==>
          (1 <= c.s.role.cursor <= |c.s.log| && c.s.log[c.s.role.cursor - 1].IsEvent() ==>
             c.s.role.cursor <= c.s.role.watermark))
  }

  lemma {:induction false} PathLands(ap: Applier, p0: Projection, stream: int, moves: seq<Move>)
    requires IsPath(ap, Start(stream, p0), moves)
    ensures Landed(ap, p0, Arrived(ap, Start(stream, p0), moves))
  {
    CounterCovers(ap, p0, stream, moves);
    PathIsRun(ap, Start(stream, p0), moves);
    CrashConsistency(ap, p0, stream, Plain(moves));
  }

  lemma {:induction false} Lands(ap: Applier, p0: Projection, handler: Handler, stream: int, past: seq<Move>,
                                 on: seq<Move>)
    requires IsPath(ap, Start(stream, p0), past)
    requires var c := Arrived(ap, Start(stream, p0), past); c.s.role.Down? && Handled(ap, handler, c, on)
    ensures IsPath(ap, Start(stream, p0), past + on)
    ensures var c := Arrived(ap, Start(stream, p0), past);
      && Arrived(ap, Start(stream, p0), past + on) == Arrived(ap, c, on)
      && Landed(ap, p0, Arrived(ap, c, on)) && AllAnswered(ap, p0, handler, Arrived(ap, c, on).s.log, |c.s.log|)
  {
    PathKeepsCounted(ap, p0, Start(stream, p0), past);
    HandledAnswers(ap, p0, handler, Arrived(ap, Start(stream, p0), past), on);
    PathConcat(ap, Start(stream, p0), past, on);
    PathLands(ap, p0, stream, past + on);
  }
}
