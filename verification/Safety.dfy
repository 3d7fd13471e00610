/** The protocol's invariant, and the proof that every step keeps it. */
module Safety {
  import opened Entries
  import opened LogShape
  import opened Protocol
  import opened Residue

  // ---------- The invariant ----------

  ghost predicate LogInv(s: State)
  {
    && Shape(s.stream, s.log)
    && EventBatchIsLast(s.log)
    && OrphansLogged(s.log, s.orphans)
  }

  /** The committed projection is the fold of exactly the Events at or below the watermark. */
  ghost predicate StoreInv(ap: Applier, p0: Projection, s: State)
  {
    && s.w <= |s.log| && Boundary(s.log, s.w)
    && s.store == FoldTo(ap, p0, s.log, s.w)
  }

  /** Every append read whole since `w` was free of Events. */
  ghost predicate ClosedQuietly(log: seq<Entry>, w: nat, n: int)
    requires n <= |log|
  {
    forall p | w <= p < n && log[p].IsNoop() :: QuietBetween(log, w, p)
  }

  /** What a read-back fold holds after the first `n` entries: committed and held parts are folds of the log. */
  ghost predicate CellInv(ap: Applier, p0: Projection, log: seq<Entry>, c: Cell, n: int)
    requires n <= |log|
  {
    && c.w <= n && c.store == FoldTo(ap, p0, log, c.w)
    && ClosedQuietly(log, c.w, n)
    && match c.txn
       case None => QuietBetween(log, c.w, n)
       case Some(t) => n >= 1 && t == FoldTo(ap, p0, log, n) && !log[n - 1].IsNoop()
  }

  ghost predicate RoleInv(ap: Applier, p0: Projection, s: State)
  {
    match s.role
    case Down => Residual(s.log, s.w, s.orphans)
    case Recovering(boot, pos, txn, lastApplied) =>
      && Residual(s.log, s.w, s.orphans)
      && s.w < pos <= |s.log| + 1 && boot <= s.w
      && (lastApplied == [] <==> boot == s.w && txn.None?)
      && CellInv(ap, p0, s.log, Cell(s.store, s.w, txn), pos - 1)
      && (txn.Some? ==> OpenBatch(s.log, s.w, pos - 1))
    case Live(boot, start, cursor, watermark, lastApplied, stage, trace) =>
      && boot <= start <= s.w && start < cursor <= |s.log| + 1
      && (!stage.Reading? ==> cursor <= |s.log| && s.log[cursor - 1].IsCommand())
      && StageInv(ap, s, cursor, watermark, stage)
  }

  ghost predicate StageInv(ap: Applier, s: State, c: nat, watermark: nat, stage: Stage)
  {
    match stage
    case Reading => watermark == s.w && Settled(s.log, s.w, c, s.orphans)
    case Dispatched(batch, work) =>
      watermark == s.w && BatchOf(batch, c) && work == Fold(ap, s.store, batch) && Settled(s.log, s.w, c, s.orphans)
    case Appended(batch, work, last) =>
      work == Fold(ap, s.store, batch) && InFlight(s.log, s.w, batch, c, last, s.orphans)
    case Committed(batch, last) => last == s.w && Settled(s.log, s.w, c + 1, s.orphans)
  }

  ghost predicate ReplicaInv(ap: Applier, p0: Projection, s: State)
  {
    && s.replicaW <= |s.log| && s.replicaStore == FoldTo(ap, p0, s.log, s.replicaW)
    && match s.replica
       case ReplicaDown => true
       case Tailing(cursor, txn) =>
         1 <= cursor <= |s.log| + 1 && CellInv(ap, p0, s.log, Cell(s.replicaStore, s.replicaW, txn), cursor - 1)
  }

  ghost predicate Inv(ap: Applier, p0: Projection, s: State)
  {
    LogInv(s) && StoreInv(ap, p0, s) && RoleInv(ap, p0, s) && ReplicaInv(ap, p0, s)
  }

  // ---------- Folding one entry back ----------

  lemma AbsorbKeepsCell(ap: Applier, p0: Projection, log: seq<Entry>, c: Cell, n: nat)
    requires n < |log| && CellInv(ap, p0, log, c, n)
    ensures CellInv(ap, p0, log, Absorb(ap, c, log[n], n + 1), n + 1)
  {
    if c.txn.None? { FoldQuiet(ap, p0, log, c.w, n); }
  }

  lemma GrowCell(ap: Applier, p0: Projection, log: seq<Entry>, group: seq<Entry>, c: Cell, n: nat)
    requires n <= |log| && CellInv(ap, p0, log, c, n)
    ensures CellInv(ap, p0, log + group, c, n)
  {
    FoldPrefix(ap, p0, log, log + group, n);
    FoldPrefix(ap, p0, log, log + group, c.w);
  }

  // ---------- The follower's part ----------

  lemma GrowReplica(ap: Applier, p0: Projection, s: State, group: seq<Entry>)
    requires ReplicaInv(ap, p0, s)
    ensures ReplicaInv(ap, p0, s.(log := s.log + group))
  {
    FoldPrefix(ap, p0, s.log, s.log + group, s.replicaW);
    if s.replica.Tailing? {
      GrowCell(ap, p0, s.log, group, Cell(s.replicaStore, s.replicaW, s.replica.txn), s.replica.cursor - 1);
    }
  }

  lemma StepKeepsReplica(ap: Applier, p0: Projection, s: State, a: Step)
    requires ReplicaInv(ap, p0, s) && Enabled(s, a)
    ensures ReplicaInv(ap, p0, Next(ap, s, a))
  {
    match a {
      case ClientAppend(command, at, noopAt) =>
        GrowReplica(ap, p0, s, Stamp(s.stream, |s.log| + 1, Terminated([ClientEntry(command, at)], noopAt)));
      case AppendBatch(noopAt) =>
        GrowReplica(ap, p0, s, Stamp(s.stream, |s.log| + 1,
          Terminated(s.role.stage.batch + [NoopOf(s.role.cursor, noopAt)], noopAt)));
      case ReplicaRead => ReplicaReads(ap, p0, s);
      case _ =>
    }
  }

  lemma ReplicaReads(ap: Applier, p0: Projection, s: State)
    requires ReplicaInv(ap, p0, s) && Enabled(s, ReplicaRead)
    ensures ReplicaInv(ap, p0, Next(ap, s, ReplicaRead))
  {
    AbsorbKeepsCell(ap, p0, s.log, Cell(s.replicaStore, s.replicaW, s.replica.txn), s.replica.cursor - 1);
  }

  // ---------- The log's part ----------

  lemma ClientGroupFits(s: State, command: Command, at: Timestamp, noopAt: Timestamp) returns (group: seq<Entry>)
    ensures AppendTo(s.stream, s.log, [ClientEntry(command, at)], noopAt) == s.log + group
    ensures GroupFits(s.log, group, None) && ClientGroup(group)
    ensures forall k | 0 <= k < |group| :: group[k].entryId == |s.log| + 1 + k && group[k].streamId == s.stream
  {
    group := Stamp(s.stream, |s.log| + 1, Terminated([ClientEntry(command, at)], noopAt));
  }

  lemma BatchGroupFits(s: State, batch: seq<Entry>, c: int, noopAt: Timestamp) returns (group: seq<Entry>)
    requires BatchOf(batch, c)
    ensures AppendTo(s.stream, s.log, batch + [NoopOf(c, noopAt)], noopAt) == s.log + group
    ensures IsGroup(group, Some(c)) && |group| == |batch| + 1
    ensures ContentAt(group, 0, batch)
    ensures forall k | 0 <= k < |group| :: group[k].entryId == |s.log| + 1 + k && group[k].streamId == s.stream
  {
    group := Stamp(s.stream, |s.log| + 1, Terminated(batch + [NoopOf(c, noopAt)], noopAt));
  }

  lemma ClientKeepsLog(ap: Applier, s: State, a: Step)
    requires LogInv(s) && a.ClientAppend?
    ensures LogInv(Next(ap, s, a))
  {
    var group := ClientGroupFits(s, a.command, a.at, a.noopAt);
    AppendKeepsShape(s.stream, s.log, group, None);
    forall i | 0 <= i < |s.log| && s.log[i].IsEvent() ensures s.log[i].cause != None { assert CauseOk(s.log, i); }
    AppendKeepsEventLast(s.log, group, None);
    GrowOrphans(s.log, group, s.orphans);
  }

  lemma AppendKeepsLog(ap: Applier, p0: Projection, s: State, a: Step)
    requires LogInv(s) && RoleInv(ap, p0, s) && a.AppendBatch? && Enabled(s, a)
    ensures LogInv(Next(ap, s, a))
  {
    var c := s.role.cursor;
    var group := BatchGroupFits(s, s.role.stage.batch, c, a.noopAt);
    AppendKeepsShape(s.stream, s.log, group, Some(c));
    AppendKeepsEventLast(s.log, group, Some(c));
    GrowOrphans(s.log, group, s.orphans);
  }

  lemma StepKeepsLog(ap: Applier, p0: Projection, s: State, a: Step)
    requires LogInv(s) && RoleInv(ap, p0, s) && Enabled(s, a)
    ensures LogInv(Next(ap, s, a))
  {
    match a {
      case ClientAppend(_, _, _) => ClientKeepsLog(ap, s, a);
      case AppendBatch(_) => AppendKeepsLog(ap, p0, s, a);
      case Crash =>
        if LostBatch(s.role) != {} {
          InFlightIsResidual(s.log, s.w, s.role.stage.batch, s.role.cursor, s.role.stage.last, s.orphans);
        }
      case _ =>
    }
  }

  // ---------- The store's part ----------

  lemma StepKeepsStore(ap: Applier, p0: Projection, s: State, a: Step)
    requires StoreInv(ap, p0, s) && RoleInv(ap, p0, s) && Enabled(s, a)
    ensures StoreInv(ap, p0, Next(ap, s, a))
  {
    match a {
      case ClientAppend(command, at, noopAt) =>
        FoldPrefix(ap, p0, s.log, Next(ap, s, a).log, s.w);
      case AppendBatch(_) =>
        FoldPrefix(ap, p0, s.log, Next(ap, s, a).log, s.w);
      case RecoverRead =>
        AbsorbKeepsCell(ap, p0, s.log, Cell(s.store, s.w, s.role.txn), s.role.pos - 1);
      case Commit =>
        CommitFolds(ap, p0, s.log, s.w, s.role.stage.batch, s.role.cursor, s.role.stage.last);
      case _ =>
    }
  }

  // ---------- The leader's part ----------

  lemma ClientKeepsStage(ap: Applier, s: State, group: seq<Entry>)
    requires s.role.Live? && StageInv(ap, s, s.role.cursor, s.role.watermark, s.role.stage) && ClientGroup(group)
    ensures StageInv(ap, s.(log := s.log + group), s.role.cursor, s.role.watermark, s.role.stage)
  {
    var c := s.role.cursor;
    match s.role.stage {
      case Appended(batch, _, last) => GrowInFlight(s.log, group, s.w, batch, c, last, s.orphans);
      case Committed(_, _) => GrowSettled(s.log, group, s.w, c + 1, s.orphans);
      case _ => GrowSettled(s.log, group, s.w, c, s.orphans);
    }
  }

  lemma ClientKeepsRole(ap: Applier, p0: Projection, s: State, group: seq<Entry>)
    requires s.w <= |s.log| && RoleInv(ap, p0, s) && ClientGroup(group)
    ensures RoleInv(ap, p0, s.(log := s.log + group))
  {
    match s.role {
      case Down => GrowResidual(s.log, group, s.w, s.orphans);
      case Recovering(boot, pos, txn, lastApplied) =>
        GrowResidual(s.log, group, s.w, s.orphans);
        GrowCell(ap, p0, s.log, group, Cell(s.store, s.w, txn), pos - 1);
        if txn.Some? { GrowOpen(s.log, group, s.w, pos - 1); }
      case Live(_, _, _, _, _, _, _) => ClientKeepsStage(ap, s, group);
    }
  }

  lemma RecoverIdleNoop(ap: Applier, p0: Projection, s: State)
    requires RoleInv(ap, p0, s) && Enabled(s, RecoverRead) && s.log[s.role.pos - 1].IsNoop() && s.role.txn.None?
    ensures RoleInv(ap, p0, Next(ap, s, RecoverRead))
  {
    AbsorbKeepsCell(ap, p0, s.log, Cell(s.store, s.w, None), s.role.pos - 1);
  }

  lemma RecoverClosingNoop(ap: Applier, p0: Projection, s: State)
    requires EventBatchIsLast(s.log) && RoleInv(ap, p0, s) && Enabled(s, RecoverRead)
    requires s.log[s.role.pos - 1].IsNoop() && s.role.txn.Some?
    ensures RoleInv(ap, p0, Next(ap, s, RecoverRead))
  {
    AbsorbKeepsCell(ap, p0, s.log, Cell(s.store, s.w, s.role.txn), s.role.pos - 1);
    CloseResidue(s.log, s.w, s.role.pos, s.orphans);
  }

  lemma RecoverOther(ap: Applier, p0: Projection, s: State)
    requires RoleInv(ap, p0, s) && Enabled(s, RecoverRead) && !s.log[s.role.pos - 1].IsNoop()
    ensures RoleInv(ap, p0, Next(ap, s, RecoverRead))
  {
    var n := s.role.pos - 1;
    AbsorbKeepsCell(ap, p0, s.log, Cell(s.store, s.w, s.role.txn), n);
    if s.role.txn.Some? || s.log[n].IsEvent() { OpenExtends(s.log, s.w, n); }
  }

  lemma ReadKeepsRole(ap: Applier, p0: Projection, s: State)
    requires LogInv(s) && RoleInv(ap, p0, s) && Enabled(s, RecoverRead)
    ensures RoleInv(ap, p0, Next(ap, s, RecoverRead))
  {
    if !s.log[s.role.pos - 1].IsNoop() {
      RecoverOther(ap, p0, s);
    } else if s.role.txn.Some? {
      RecoverClosingNoop(ap, p0, s);
    } else {
      RecoverIdleNoop(ap, p0, s);
    }
  }

  lemma DoneKeepsRole(ap: Applier, p0: Projection, s: State)
    requires LogInv(s) && StoreInv(ap, p0, s) && RoleInv(ap, p0, s) && Enabled(s, RecoverDone)
    ensures RoleInv(ap, p0, Next(ap, s, RecoverDone))
    ensures s.role.txn.None?
  {
    assert s.role.pos == |s.log| + 1 && s.role.txn.None?;
    RecoveredIsSettled(s.stream, s.log, s.w, s.orphans);
  }

  lemma AppendKeepsRole(ap: Applier, p0: Projection, s: State, a: Step)
    requires StoreInv(ap, p0, s) && RoleInv(ap, p0, s) && a.AppendBatch? && Enabled(s, a)
    ensures RoleInv(ap, p0, Next(ap, s, a))
  {
    var batch := s.role.stage.batch;
    var group := BatchGroupFits(s, batch, s.role.cursor, a.noopAt);
    AppendIsInFlight(s.log, group, s.w, batch, s.role.cursor, s.orphans);
  }

  lemma CrashKeepsRole(ap: Applier, p0: Projection, s: State)
    requires LogInv(s) && RoleInv(ap, p0, s) && Enabled(s, Crash)
    ensures RoleInv(ap, p0, Next(ap, s, Crash))
  {
    if s.role.Live? {
      var c := s.role.cursor;
      match s.role.stage {
        case Appended(batch, _, last) => InFlightIsResidual(s.log, s.w, batch, c, last, s.orphans);
        case Committed(_, _) => SettledIsResidual(s.log, s.w, c + 1, s.orphans);
        case _ => SettledIsResidual(s.log, s.w, c, s.orphans);
      }
    }
  }

  lemma DispatchKeepsRole(ap: Applier, p0: Projection, s: State, a: Step)
    requires RoleInv(ap, p0, s) && (a.Produce? || a.Refuse?) && Enabled(s, a)
    ensures RoleInv(ap, p0, Next(ap, s, a))
  {
    if a.Refuse? { FoldQuiet(ap, s.store, RefusalOf(s.role.cursor, a.reject, a.at), 0, 1); }
  }

  lemma CommitKeepsRole(ap: Applier, p0: Projection, s: State)
    requires LogInv(s) && RoleInv(ap, p0, s) && Enabled(s, Commit)
    ensures RoleInv(ap, p0, Next(ap, s, Commit))
  {
    CommitSettles(s.stream, s.log, s.w, s.role.stage.batch, s.role.cursor, s.role.stage.last, s.orphans);
  }

  lemma AdvanceKeepsRole(ap: Applier, p0: Projection, s: State, a: Step)
    requires RoleInv(ap, p0, s) && (a.Announce? || a.Skip?) && Enabled(s, a)
    ensures RoleInv(ap, p0, Next(ap, s, a))
  {
  }

  lemma OtherKeepsRole(ap: Applier, p0: Projection, s: State, a: Step)
    requires StoreInv(ap, p0, s) && RoleInv(ap, p0, s) && Enabled(s, a)
    requires a.Boot? || a.ReplicaBoot? || a.ReplicaRead? || a.ReplicaCrash?
    ensures RoleInv(ap, p0, Next(ap, s, a))
  {
  }

  lemma StepKeepsRole(ap: Applier, p0: Projection, s: State, a: Step)
    requires LogInv(s) && StoreInv(ap, p0, s) && RoleInv(ap, p0, s) && Enabled(s, a)
    ensures RoleInv(ap, p0, Next(ap, s, a))
  {
    match a {
      case ClientAppend(command, at, noopAt) =>
        var group := ClientGroupFits(s, command, at, noopAt);
        ClientKeepsRole(ap, p0, s, group);
      case RecoverRead => ReadKeepsRole(ap, p0, s);
      case RecoverDone => DoneKeepsRole(ap, p0, s);
      case Produce(_) => DispatchKeepsRole(ap, p0, s, a);
      case Refuse(_, _) => DispatchKeepsRole(ap, p0, s, a);
      case AppendBatch(_) => AppendKeepsRole(ap, p0, s, a);
      case Commit => CommitKeepsRole(ap, p0, s);
      case Announce => AdvanceKeepsRole(ap, p0, s, a);
      case Skip => AdvanceKeepsRole(ap, p0, s, a);
      case Crash => CrashKeepsRole(ap, p0, s);
      case _ => OtherKeepsRole(ap, p0, s, a);
    }
  }

  // ---------- Every reachable state ----------

  lemma StepKeepsInv(ap: Applier, p0: Projection, s: State, a: Step)
    requires Inv(ap, p0, s) && Enabled(s, a)
    ensures Inv(ap, p0, Next(ap, s, a))
  {
    StepKeepsLog(ap, p0, s, a);
    StepKeepsStore(ap, p0, s, a);
    StepKeepsRole(ap, p0, s, a);
    StepKeepsReplica(ap, p0, s, a);
  }
}
