/**
 * The log / projection / watermark protocol as a step system: a leader that dispatches, appends,
 * commits and announces; clients that append at any moment; a recovery pass; a follower; and crashes
 * between any two steps. Handlers are arbitrary: a dispatch step carries whatever batch it produced.
 */
module Protocol {
  import opened Entries

  // ---------- State ----------

  /** Where the leader's live loop stands in the treatment of the Command under its cursor. */
  datatype Stage =
    | Reading
    | Dispatched(batch: seq<Entry>, work: Projection)
    | Appended(batch: seq<Entry>, work: Projection, last: nat)
    | Committed(batch: seq<Entry>, last: nat)

  /** What one incarnation has done, as an observer would record it. */
  datatype Trace = Trace(
    residue: seq<Event>,      // `last_applied` as recovery left it
    firstRefused: bool,       // the first Command went through `reject_command`
    dispatched: seq<nat>,     // positions of the Commands dispatched
    produced: seq<Entry>,     // every entry dispatch produced
    reported: seq<Event>,     // `on_event_applied` calls
    refused: seq<Reject>)     // `on_command_rejected` calls

  datatype Role =
    | Down
    | Recovering(boot: nat, pos: nat, txn: Option<Projection>, lastApplied: seq<Event>)
    | Live(boot: nat, start: nat, cursor: nat, watermark: nat, lastApplied: seq<Event>, stage: Stage, trace: Trace)

  datatype Replica = ReplicaDown | Tailing(cursor: nat, txn: Option<Projection>)

  datatype State = State(
    stream: int, log: seq<Entry>,
    store: Projection, w: nat, role: Role,
    orphans: set<int>,        // Commands whose event-free batch was appended but lost its commit to a crash
    replicaStore: Projection, replicaW: nat, replica: Replica)

  function Init(stream: int, p0: Projection): State
  {
    State(stream, [], p0, 0, Down, {}, p0, 0, ReplicaDown)
  }

  // ---------- Steps ----------

  datatype Step =
    | ClientAppend(command: Command, at: Timestamp, noopAt: Timestamp)
    | Boot
    | RecoverRead
    | RecoverDone
    | Produce(batch: seq<Entry>)
    | Refuse(reject: Reject, at: Timestamp)
    | AppendBatch(noopAt: Timestamp)
    | Commit
    | Announce
    | Skip
    | Crash
    | ReplicaBoot
    | ReplicaRead
    | ReplicaCrash

  /** What a successful dispatch of the Command at `c` may hand the driver. */
  ghost predicate BatchOf(batch: seq<Entry>, c: int)
  {
    && batch != []
    && forall k | 0 <= k < |batch| :: batch[k].cause == Some(c) && !batch[k].IsNoop()
  }

  function ClientEntry(command: Command, at: Timestamp): Entry
  {
    Entry(NIL_ID, NIL_ID, None, at, CommandPayload(command))
  }

  function NoopOf(c: int, at: Timestamp): Entry
  {
    Entry(NIL_ID, NIL_ID, Some(c), at, Noop)
  }

  function AppendTo(stream: int, log: seq<Entry>, entries: seq<Entry>, now: Timestamp): seq<Entry>
  {
    log + Stamp(stream, |log| + 1, Terminated(entries, now))
  }

  /** A projection, its watermark, and the transaction held for the batch being read back. */
  datatype Cell = Cell(store: Projection, w: nat, txn: Option<Projection>)

  /** One entry of a read-back fold: an Event folds into the held transaction, a Noop commits it. */
  function Absorb(ap: Applier, c: Cell, entry: Entry, pos: nat): Cell
  {
    match entry.payload
    case EventPayload(event) =>
      var base := if c.txn.Some? then c.txn.value else c.store;
      c.(txn := Some(ap(base, event, entry.timestamp)))
    case Noop => if c.txn.Some? then Cell(c.txn.value, pos, None) else c
    case _ => c
  }

  ghost predicate Enabled(s: State, a: Step)
  {
    match a
    case ClientAppend(_, _, _) => true
    case Boot => s.role.Down?
    case RecoverRead => s.role.Recovering? && 1 <= s.role.pos <= |s.log|
    case RecoverDone => s.role.Recovering? && s.role.pos > |s.log|
    case Produce(batch) => AtCommand(s) && BatchOf(batch, s.role.cursor)
    case Refuse(_, _) => AtCommand(s)
    case AppendBatch(_) => s.role.Live? && s.role.stage.Dispatched?
    case Commit => s.role.Live? && s.role.stage.Appended?
    case Announce => s.role.Live? && s.role.stage.Committed?
    case Skip => s.role.Live? && s.role.stage.Reading? && 1 <= s.role.cursor <= |s.log| &&
      !s.log[s.role.cursor - 1].IsCommand()
    case Crash => !s.role.Down?
    case ReplicaBoot => s.replica.ReplicaDown?
    case ReplicaRead => s.replica.Tailing? && 1 <= s.replica.cursor <= |s.log|
    case ReplicaCrash => s.replica.Tailing?
  }

  ghost predicate AtCommand(s: State)
  {
    s.role.Live? && s.role.stage.Reading? && 1 <= s.role.cursor <= |s.log| && s.log[s.role.cursor - 1].IsCommand()
  }

  function RefusalOf(c: int, reject: Reject, at: Timestamp): seq<Entry>
  {
    [Entry(NIL_ID, NIL_ID, Some(c), at, RejectPayload(reject))]
  }

  ghost function Next(ap: Applier, s: State, a: Step): State
    requires Enabled(s, a)
  {
    match a
    case ClientAppend(command, at, noopAt) =>
      s.(log := AppendTo(s.stream, s.log, [ClientEntry(command, at)], noopAt))
    case Boot => s.(role := Recovering(s.w, s.w + 1, None, []))
    case RecoverRead =>
      var entry := s.log[s.role.pos - 1];
      var c := Absorb(ap, Cell(s.store, s.w, s.role.txn), entry, s.role.pos);
      var applied := if entry.IsEvent() then [entry.payload.event] else s.role.lastApplied;
      s.(store := c.store, w := c.w, role := s.role.(pos := s.role.pos + 1, txn := c.txn, lastApplied := applied))
    case RecoverDone =>
      s.(role := Live(s.role.boot, s.w, s.w + 1, s.w, s.role.lastApplied, Reading,
                      Trace(s.role.lastApplied, false, [], [], [], [])))
    case Produce(batch) =>
      s.(role := Dispatch(s.role, batch, Fold(ap, s.store, batch)).(lastApplied := Events(batch)))
    case Refuse(reject, at) =>
      var r := Dispatch(s.role, RefusalOf(s.role.cursor, reject, at), s.store);
      s.(role := r.(trace := r.trace.(firstRefused := s.role.trace.firstRefused || s.role.trace.dispatched == [])))
    case AppendBatch(noopAt) =>
      var log := AppendTo(s.stream, s.log, s.role.stage.batch + [NoopOf(s.role.cursor, noopAt)], noopAt);
      s.(log := log, role := s.role.(stage := Appended(s.role.stage.batch, s.role.stage.work, |log|)))
    case Commit =>
      s.(store := s.role.stage.work, w := s.role.stage.last,
         role := s.role.(stage := Committed(s.role.stage.batch, s.role.stage.last)))
    case Announce =>
      s.(role := s.role.(cursor := s.role.cursor + 1, watermark := s.role.stage.last, lastApplied := [],
        stage := Reading,
                         trace := s.role.trace.(reported := s.role.trace.reported + s.role.lastApplied,
                                                refused := s.role.trace.refused + Rejects(s.role.stage.batch))))
    case Skip => s.(role := s.role.(cursor := s.role.cursor + 1))
    case Crash => s.(role := Down, orphans := s.orphans + LostBatch(s.role))
    case ReplicaBoot => s.(replica := Tailing(s.replicaW + 1, None))
    case ReplicaRead =>
      var c := Absorb(ap, Cell(s.replicaStore, s.replicaW, s.replica.txn), s.log[s.replica.cursor - 1],
        s.replica.cursor);
      s.(replicaStore := c.store, replicaW := c.w, replica := Tailing(s.replica.cursor + 1, c.txn))
    case ReplicaCrash => s.(replica := ReplicaDown)
  }

  function Dispatch(r: Role, batch: seq<Entry>, work: Projection): (r': Role)
    requires r.Live?
    ensures r'.Live?
  {
    r.(stage := Dispatched(batch, work),
       trace := r.trace.(dispatched := r.trace.dispatched + [r.cursor], produced := r.trace.produced + batch))
  }

  /** The Command whose event-free batch a crash in this role leaves appended but uncommitted. */
  ghost function LostBatch(r: Role): set<int>
  {
    if r.Live? && r.stage.Appended? && Quiet(r.stage.batch) then {r.cursor} else {}
  }

  // ---------- Runs ----------

  ghost predicate IsRun(ap: Applier, s: State, steps: seq<Step>)
    decreases |steps|
  {
    steps == [] || (Enabled(s, steps[0]) && IsRun(ap, Next(ap, s, steps[0]), steps[1..]))
  }

  ghost function After(ap: Applier, s: State, steps: seq<Step>): State
    requires IsRun(ap, s, steps)
    decreases |steps|
  {
    if steps == [] then s else After(ap, Next(ap, s, steps[0]), steps[1..])
  }

  lemma {:induction false} RunConcat(ap: Applier, s: State, a: seq<Step>, b: seq<Step>)
    requires IsRun(ap, s, a) && IsRun(ap, After(ap, s, a), b)
    ensures IsRun(ap, s, a + b)
    ensures After(ap, s, a + b) == After(ap, After(ap, s, a), b)
    decreases |a|
  {
    if a == [] {
      assert a + b == b;
    } else {
      assert (a + b)[1..] == a[1..] + b;
      RunConcat(ap, Next(ap, s, a[0]), a[1..], b);
    }
  }

  lemma RunSnoc(ap: Applier, s: State, steps: seq<Step>, a: Step)
    requires IsRun(ap, s, steps) && Enabled(After(ap, s, steps), a)
    ensures IsRun(ap, s, steps + [a])
    ensures After(ap, s, steps + [a]) == Next(ap, After(ap, s, steps), a)
  {
    var s' := After(ap, s, steps);
    assert IsRun(ap, Next(ap, s', a), []) && [a][1..] == [];
    assert After(ap, s', [a]) == After(ap, Next(ap, s', a), []);
    RunConcat(ap, s, steps, [a]);
  }
}
