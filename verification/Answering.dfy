/** Whose answer every batch is: runs whose dispatches are a handler's answers, and what their logs then hold. */
module Answering {
  import opened Entries
  import opened LogShape
  import opened Protocol
  import opened Residue
  import opened Safety
  import opened Incarnation
  import opened Counter
  import opened Dispatching
  import opened Minting

  // ---------- Dispatches of one handler ----------

  /** The batch is the handler's answer to this Command at `c`, on this projection and counter. */
  ghost predicate IsAnswer(handler: Handler, p: Projection, seqNo: nat, c: int, command: Command, batch: seq<Entry>)
  {
    var attempts := Tries(handler, p, seqNo, c, command);
    exists k :: Final(attempts, k) && Answer(c, command, attempts(k), batch)
  }

  /** The dispatch ends as the k-th attempt at the Command under the cursor, on the committed state, did. */
  ghost predicate HandledBy(handler: Handler, c: Counted, m: Move, k: nat)
    requires AtCommand(c.s)
  {
    var command := c.s.log[c.s.role.cursor - 1].payload.command;
    var attempts := Tries(handler, c.s.store, c.leader.seqNo, c.s.role.cursor, command);
    && Final(attempts, k)
    && match m.step
       case Produce(_) => attempts(k) == Done(m.acts)
       case Refuse(reject, _) => Refuses(reject, command, attempts(k))
       case _ => true
  }

  ghost predicate HandledMove(handler: Handler, c: Counted, m: Move)
    requires CanMove(c, m)
  {
    m.step.Produce? || m.step.Refuse? ==> exists k :: HandledBy(handler, c, m, k)
  }

  /** A path whose every dispatch is the handler's answer. */
  ghost predicate Handled(ap: Applier, handler: Handler, c: Counted, moves: seq<Move>)
    ensures Handled(ap, handler, c, moves) ==> IsPath(ap, c, moves)
    decreases |moves|
  {
    moves == [] || (CanMove(c, moves[0]) && HandledMove(handler, c, moves[0])
                    && Handled(ap, handler, Moved(ap, c, moves[0]), moves[1..]))
  }

  ghost predicate NoDispatch(moves: seq<Move>)
  {
    forall i | 0 <= i < |moves| :: !moves[i].step.Produce? && !moves[i].step.Refuse?
  }

  lemma {:induction false} NoDispatchHandled(ap: Applier, handler: Handler, c: Counted, moves: seq<Move>)
    requires IsPath(ap, c, moves) && NoDispatch(moves)
    ensures Handled(ap, handler, c, moves)
    decreases |moves|
  {
    if moves != [] { NoDispatchHandled(ap, handler, Moved(ap, c, moves[0]), moves[1..]); }
  }

  lemma {:induction false} HandledConcat(ap: Applier, handler: Handler, c: Counted, a: seq<Move>, b: seq<Move>)
    requires Handled(ap, handler, c, a) && Handled(ap, handler, Arrived(ap, c, a), b)
    ensures Handled(ap, handler, c, a + b) && Arrived(ap, c, a + b) == Arrived(ap, Arrived(ap, c, a), b)
    decreases |a|
  {
    if a == [] {
      assert a + b == b;
    } else {
      assert (a + b)[1..] == a[1..] + b;
      HandledConcat(ap, handler, Moved(ap, c, a[0]), a[1..], b);
    }
  }

  lemma {:induction false} HandledSnoc(ap: Applier, handler: Handler, c: Counted, moves: seq<Move>, m: Move)
    requires Handled(ap, handler, c, moves)
    requires CanMove(Arrived(ap, c, moves), m) && HandledMove(handler, Arrived(ap, c, moves), m)
    ensures Handled(ap, handler, c, moves + [m])
    ensures Arrived(ap, c, moves + [m]) == Moved(ap, Arrived(ap, c, moves), m)
  {
    var d := Arrived(ap, c, moves);
    assert Handled(ap, handler, Moved(ap, d, m), []) && [m][1..] == [];
    assert Arrived(ap, d, [m]) == Arrived(ap, Moved(ap, d, m), []);
    HandledConcat(ap, handler, c, moves, [m]);
  }

  /** Going on without a dispatch. */
  lemma {:induction false} HandledOn(ap: Applier, handler: Handler, c: Counted, moves: seq<Move>, more: seq<Move>)
    requires Handled(ap, handler, c, moves) && IsPath(ap, Arrived(ap, c, moves), more) && NoDispatch(more)
    ensures Handled(ap, handler, c, moves + more)
    ensures Arrived(ap, c, moves + more) == Arrived(ap, Arrived(ap, c, moves), more)
  {
    NoDispatchHandled(ap, handler, Arrived(ap, c, moves), more);
    HandledConcat(ap, handler, c, moves, more);
  }

  // ---------- What their logs hold ----------

  /**
   * The append that the Noop at index `j` closes is the handler's answer to the Command its cause names: on
   * the fold of everything before it, and with a counter that has passed every name created there.
   */
  ghost predicate AnsweredAt(ap: Applier, p0: Projection, handler: Handler, log: seq<Entry>, j: int,
                             batch: seq<Entry>, seqNo: nat)
    requires 0 <= j < |log| && log[j].cause.Some?
  {
    var c, first := log[j].cause.value, j - |batch|;
    && 1 <= c <= first && log[c - 1].IsCommand() && Boundary(log, first) && ContentAt(log, first, batch)
    && (forall k | first <= k < j :: log[k].cause == Some(c))
    && Covers(seqNo, log, first)
    && IsAnswer(handler, FoldTo(ap, p0, log, first), seqNo, c, log[c - 1].payload.command, batch)
  }

  ghost predicate Answered(ap: Applier, p0: Projection, handler: Handler, log: seq<Entry>, j: int)
    requires 0 <= j < |log| && log[j].cause.Some?
  {
    exists batch, seqNo :: AnsweredAt(ap, p0, handler, log, j, batch, seqNo)
  }

  /** Every batch closed at index `n` or later is such an answer. */
  ghost predicate AllAnswered(ap: Applier, p0: Projection, handler: Handler, log: seq<Entry>, n: nat)
  {
    forall j | n <= j < |log| && log[j].IsNoop() && log[j].cause.Some? :: Answered(ap, p0, handler, log, j)
  }

  /** The batch dispatched and not yet appended is the handler's answer too. */
  ghost predicate InHandAnswered(handler: Handler, c: Counted)
  {
    c.s.role.Live? && c.s.role.stage.Dispatched? ==>
      && 1 <= c.s.role.cursor <= |c.s.log| && c.s.log[c.s.role.cursor - 1].IsCommand()
      && IsAnswer(handler, c.s.store, c.leader.seqNo, c.s.role.cursor, c.s.log[c.s.role.cursor - 1].payload.command,
           c.s.role.stage.batch)
  }

  lemma AnsweredGrows(ap: Applier, p0: Projection, handler: Handler, log: seq<Entry>, longer: seq<Entry>, j: int,
                      batch: seq<Entry>, seqNo: nat)
    requires 0 <= j < |log| && log[j].cause.Some? && log <= longer
    requires AnsweredAt(ap, p0, handler, log, j, batch, seqNo)
    ensures AnsweredAt(ap, p0, handler, longer, j, batch, seqNo)
  {
    FoldPrefix(ap, p0, log, longer, j - |batch|);
    CoversGrows(seqNo, log, longer, j - |batch|);
  }

  /** A dispatch that the handler handled leaves its answer in hand. */
  lemma DispatchAnswers(ap: Applier, handler: Handler, c: Counted, m: Move)
    requires CanMove(c, m) && HandledMove(handler, c, m) && (m.step.Produce? || m.step.Refuse?)
    ensures InHandAnswered(handler, Moved(ap, c, m))
  {
    var k :| HandledBy(handler, c, m, k);
    var command := c.s.log[c.s.role.cursor - 1].payload.command;
    var attempts := Tries(handler, c.s.store, c.leader.seqNo, c.s.role.cursor, command);
    assert Answer(c.s.role.cursor, command, attempts(k), Moved(ap, c, m).s.role.stage.batch);
  }

  /** What was answered stays so when a group is appended; only the group's own closing Noop is new. */
  lemma GrowAnswered(ap: Applier, p0: Projection, handler: Handler, log: seq<Entry>, group: seq<Entry>,
                     cause: Option<int>, n: nat)
    requires AllAnswered(ap, p0, handler, log, n) && IsGroup(group, cause)
    requires cause.Some? ==> Answered(ap, p0, handler, log + group, |log + group| - 1)
    ensures AllAnswered(ap, p0, handler, log + group, n)
  {
    var longer := log + group;
    forall j | n <= j < |longer| && longer[j].IsNoop() && longer[j].cause.Some?
      ensures Answered(ap, p0, handler, longer, j)
    {
      if j < |log| {
        var batch, seqNo :| AnsweredAt(ap, p0, handler, log, j, batch, seqNo);
        AnsweredGrows(ap, p0, handler, log, longer, j, batch, seqNo);
      } else {
        assert group[j - |log|] == longer[j];
        assert j == |longer| - 1;
      }
    }
  }

  /** With a batch in hand, the committed state is the fold of the whole log, and its counter has passed all of it. */
  ghost predicate Current(ap: Applier, p0: Projection, c: Counted)
    requires c.s.role.Live? && c.s.role.stage.Dispatched?
  {
    && BatchOf(c.s.role.stage.batch, c.s.role.cursor) && Boundary(c.s.log, |c.s.log|)
    && c.s.store == FoldTo(ap, p0, c.s.log, |c.s.log|) && Covers(c.leader.seqNo, c.s.log, |c.s.log|)
  }

  lemma InHandIsCurrent(ap: Applier, p0: Projection, c: Counted)
    requires CountedInv(ap, p0, c) && c.s.role.Live? && c.s.role.stage.Dispatched?
    ensures Current(ap, p0, c)
  {
    InHandFolds(ap, p0, c.s);
    CoversQuiet(c.leader.seqNo, c.s.log, c.s.w, |c.s.log|);
  }

  lemma InHandFolds(ap: Applier, p0: Projection, s: State)
    requires LogInv(s) && StoreInv(ap, p0, s) && RoleInv(ap, p0, s) && s.role.Live? && s.role.stage.Dispatched?
    ensures BatchOf(s.role.stage.batch, s.role.cursor) && Boundary(s.log, |s.log|)
    ensures QuietBetween(s.log, s.w, |s.log|) && s.store == FoldTo(ap, p0, s.log, |s.log|)
  {
    FoldQuiet(ap, p0, s.log, s.w, |s.log|);
  }

  /** A batch appended right above everything it was an answer to. */
  lemma GroupAnswered(ap: Applier, p0: Projection, handler: Handler, log: seq<Entry>, group: seq<Entry>,
                      batch: seq<Entry>, c: nat, seqNo: nat)
    requires 1 <= c <= |log| && log[c - 1].IsCommand() && Boundary(log, |log|) && Covers(seqNo, log, |log|)
    requires IsAnswer(handler, FoldTo(ap, p0, log, |log|), seqNo, c, log[c - 1].payload.command, batch)
    requires IsGroup(group, Some(c)) && |group| == |batch| + 1 && ContentAt(group, 0, batch)
    ensures Answered(ap, p0, handler, log + group, |log + group| - 1)
  {
    var longer := log + group;
    FoldPrefix(ap, p0, log, longer, |log|);
    CoversGrows(seqNo, log, longer, |log|);
    assert forall k | 0 <= k < |group| :: longer[|log| + k] == group[k];
    assert AnsweredAt(ap, p0, handler, longer, |longer| - 1, batch, seqNo);
  }

  lemma AppendAnswers(ap: Applier, p0: Projection, handler: Handler, c: Counted, noopAt: Timestamp, n: nat)
    requires CountedInv(ap, p0, c) && InHandAnswered(handler, c) && AllAnswered(ap, p0, handler, c.s.log, n)
    requires Enabled(c.s, AppendBatch(noopAt))
    ensures AllAnswered(ap, p0, handler, Next(ap, c.s, AppendBatch(noopAt)).log, n)
  {
    InHandIsCurrent(ap, p0, c);
    AppendCurrent(ap, p0, handler, c, noopAt, n);
  }

  lemma AppendCurrent(ap: Applier, p0: Projection, handler: Handler, c: Counted, noopAt: Timestamp, n: nat)
    requires InHandAnswered(handler, c) && AllAnswered(ap, p0, handler, c.s.log, n)
    requires Enabled(c.s, AppendBatch(noopAt)) && Current(ap, p0, c)
    ensures AllAnswered(ap, p0, handler, Next(ap, c.s, AppendBatch(noopAt)).log, n)
  {
    var group := BatchGroupFits(c.s, c.s.role.stage.batch, c.s.role.cursor, noopAt);
    AppendGroup(ap, p0, handler, c.s.log, group, c.s.role.stage.batch, c.s.role.cursor, c.leader.seqNo, n);
  }

  lemma AppendGroup(ap: Applier, p0: Projection, handler: Handler, log: seq<Entry>, group: seq<Entry>,
                    batch: seq<Entry>, c: nat, seqNo: nat, n: nat)
    requires AllAnswered(ap, p0, handler, log, n)
    requires 1 <= c <= |log| && log[c - 1].IsCommand() && Boundary(log, |log|) && Covers(seqNo, log, |log|)
    requires IsAnswer(handler, FoldTo(ap, p0, log, |log|), seqNo, c, log[c - 1].payload.command, batch)
    requires IsGroup(group, Some(c)) && |group| == |batch| + 1 && ContentAt(group, 0, batch)
    ensures AllAnswered(ap, p0, handler, log + group, n)
  {
    GroupAnswered(ap, p0, handler, log, group, batch, c, seqNo);
    GrowAnswered(ap, p0, handler, log, group, Some(c), n);
  }

  lemma LogAnswers(ap: Applier, p0: Projection, handler: Handler, c: Counted, m: Move, n: nat)
    requires CountedInv(ap, p0, c) && InHandAnswered(handler, c) && AllAnswered(ap, p0, handler, c.s.log, n)
    requires CanMove(c, m)
    ensures AllAnswered(ap, p0, handler, Moved(ap, c, m).s.log, n)
  {
    if m.step.ClientAppend? {
      ClientAnswers(ap, p0, handler, c.s, m.step, n);
    } else if m.step.AppendBatch? {
      AppendAnswers(ap, p0, handler, c, m.step.noopAt, n);
    } else {
      LogUnchanged(ap, c.s, m.step);
    }
  }

  lemma LogUnchanged(ap: Applier, s: State, a: Step)
    requires Enabled(s, a) && !a.ClientAppend? && !a.AppendBatch?
    ensures Next(ap, s, a).log == s.log
  {
  }

  lemma ClientAnswers(ap: Applier, p0: Projection, handler: Handler, s: State, a: Step, n: nat)
    requires AllAnswered(ap, p0, handler, s.log, n) && a.ClientAppend?
    ensures AllAnswered(ap, p0, handler, Next(ap, s, a).log, n)
  {
    var group := ClientGroupFits(s, a.command, a.at, a.noopAt);
    GrowAnswered(ap, p0, handler, s.log, group, None, n);
  }

  lemma HandAnswers(ap: Applier, handler: Handler, c: Counted, m: Move)
    requires InHandAnswered(handler, c) && CanMove(c, m) && HandledMove(handler, c, m)
    ensures InHandAnswered(handler, Moved(ap, c, m))
  {
    if m.step.Produce? || m.step.Refuse? { DispatchAnswers(ap, handler, c, m); }
  }

  lemma {:induction false} PathAnswers(ap: Applier, p0: Projection, handler: Handler, c: Counted, moves: seq<Move>,
                                       n: nat)
    requires CountedInv(ap, p0, c) && InHandAnswered(handler, c) && AllAnswered(ap, p0, handler, c.s.log, n)
    requires Handled(ap, handler, c, moves)
    ensures AllAnswered(ap, p0, handler, Arrived(ap, c, moves).s.log, n)
    decreases |moves|
  {
    if moves != [] {
      LogAnswers(ap, p0, handler, c, moves[0], n);
      HandAnswers(ap, handler, c, moves[0]);
      MoveKeepsCounted(ap, p0, c, moves[0]);
      PathAnswers(ap, p0, handler, Moved(ap, c, moves[0]), moves[1..], n);
    }
  }

  /**
   * From any state with no leader running: when every dispatch is the handler's answer, every batch appended
   * since, whatever crashed in between, is its answer to the Command its cause names, on the fold of
   * everything before the batch.
   */
  lemma {:induction false} HandledAnswers(ap: Applier, p0: Projection, handler: Handler, c: Counted, moves: seq<Move>)
    requires CountedInv(ap, p0, c) && c.s.role.Down? && Handled(ap, handler, c, moves)
    ensures AllAnswered(ap, p0, handler, Arrived(ap, c, moves).s.log, |c.s.log|)
  {
    PathAnswers(ap, p0, handler, c, moves, |c.s.log|);
  }

  /** And whatever entry a Command caused since lies in such a batch. */
  lemma {:induction false} RecordAnswered(ap: Applier, p0: Projection, handler: Handler, c: Counted, moves: seq<Move>,
                                          i: nat) returns (j: nat)
    requires CountedInv(ap, p0, c) && c.s.role.Down? && Handled(ap, handler, c, moves)
    requires var log := Arrived(ap, c, moves).s.log; |c.s.log| <= i < |log| && log[i].cause.Some?
    ensures var log := Arrived(ap, c, moves).s.log;
      && i <= j < |log| && SameRun(log, i, j) && log[j].IsNoop() && log[j].cause == log[i].cause
      && Answered(ap, p0, handler, log, j)
  {
    HandledAnswers(ap, p0, handler, c, moves);
    PathKeepsCounted(ap, p0, c, moves);
    j := ClosingNoop(Arrived(ap, c, moves).s.log, i);
  }

  lemma ClosingNoop(log: seq<Entry>, i: nat) returns (j: nat)
    requires RunsShareCause(log) && i < |log| && log[|log| - 1].IsNoop()
    ensures i <= j < |log| && SameRun(log, i, j) && log[j].IsNoop() && log[j].cause == log[i].cause
  {
    j := i;
    while !log[j].IsNoop()
      invariant i <= j < |log| && SameRun(log, i, j)
      decreases |log| - j
    {
      j := j + 1;
    }
    RunCause(log, i, j);
  }
}
