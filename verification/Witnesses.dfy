/** Runs that show each exception the guarantees allow for: the failing side of their conditions is not empty. */
module Witnesses {
  import opened Entries
  import opened Protocol
  import opened Residue
  import opened Incarnation
  import opened Guarantees
  import opened Readback
  import opened Restart
  import opened Envelope
  import opened Counter
  import opened Dispatching
  import opened Minting
  import opened Continuations

  // ---------- One Command, its batch, and a crash ----------

  /** A leader about to dispatch the log's first and only Command. */
  lemma {:induction false} FirstCommand(ap: Applier, p0: Projection, stream: int) returns (moves: seq<Move>)
    ensures IsPath(ap, Start(stream, p0), moves)
    ensures var c := At(ap, p0, stream, moves);
      && AtCommand(c.s) && c.s.role.cursor == 1 && c.s.w == 0 && c.s.orphans == {} && c.s.stream == stream
      && c.leader == SeqCell(0, None) && c.lost == {}
      && |c.s.log| == 2 && c.s.log[1].IsNoop() && !c.s.log[0].IsEvent()
  {
    moves := Go(ap, p0, stream, [], Boot, []);
    moves := Go(ap, p0, stream, moves, RecoverDone, []);
    moves := Go(ap, p0, stream, moves, ClientAppend(SOME_COMMAND, 0, 0), []);
  }

  /** What an append of a one-record batch after two entries leaves. */
  lemma {:induction false} AfterBatch(stream: int, log: seq<Entry>, record: Entry)
    requires |log| == 2 && !record.IsNoop()
    ensures var longer := AppendTo(stream, log, [record] + [NoopOf(1, 0)], 0);
      |longer| == 4 && longer[..2] == log && longer[2].payload == record.payload && longer[3].IsNoop()
  {
  }

  /** The dispatch puts exactly this record in the leader's hands. */
  ghost predicate PutsOne(step: Step, record: Entry)
  {
    && (step == Produce([record]) || (step.Refuse? && [record] == RefusalOf(1, step.reject, step.at)))
    && !record.IsNoop()
  }

  lemma {:induction false} AppendOne(ap: Applier, p0: Projection, stream: int, before: seq<Move>, step: Step,
                                     acts: seq<Act>, record: Entry)
    returns (moves: seq<Move>)
    requires IsPath(ap, Start(stream, p0), before) && PutsOne(step, record)
    requires var c := At(ap, p0, stream, before);
      AtCommand(c.s) && c.s.role.cursor == 1 && |c.s.log| == 2 && CanMove(c, Move(step, acts))
    ensures IsPath(ap, Start(stream, p0), moves)
    ensures var c, d := At(ap, p0, stream, before), At(ap, p0, stream, moves);
      && |d.s.log| == 4 && d.s.log[..2] == c.s.log && d.s.log[2].payload == record.payload && d.s.log[3].IsNoop()
      && d.s.w == c.s.w && d.s.orphans == c.s.orphans && d.lost == c.lost && d.leader.seqNo == c.leader.seqNo
      && d.s.role.Live? && d.s.role.cursor == 1 && d.s.role.stage.Appended? && d.s.role.stage.batch == [record]
      && d.inHand == if step.Produce? then MintedTo(acts, c.leader.seqNo, |acts|) else {}
  {
    var c := At(ap, p0, stream, before);
    AfterBatch(c.s.stream, c.s.log, record);
    moves := Go(ap, p0, stream, before, step, acts);
    moves := Go(ap, p0, stream, moves, AppendBatch(0), []);
  }

  lemma {:induction false} Kill(ap: Applier, p0: Projection, stream: int, appended: seq<Move>)
    returns (moves: seq<Move>)
    requires IsPath(ap, Start(stream, p0), appended)
    requires var r := At(ap, p0, stream, appended).s.role; r.Live? && r.stage.Appended?
    ensures IsPath(ap, Start(stream, p0), moves)
    ensures var a, d := At(ap, p0, stream, appended), At(ap, p0, stream, moves);
      && d.s == a.s.(role := Down, orphans := a.s.orphans + LostBatch(a.s.role))
      && d.leader == a.leader.(held := None) && d.lost == a.lost + a.inHand
  {
    moves := Go(ap, p0, stream, appended, Crash, []);
  }

  /** The first Command's event-free batch is appended, and the leader killed before its commit. */
  lemma {:induction false} LoseBatch(ap: Applier, p0: Projection, stream: int, step: Step, acts: seq<Act>,
                                     record: Entry)
    returns (appended: seq<Move>, moves: seq<Move>)
    requires PutsOne(step, record) && !record.IsEvent() &&
      (step.Produce? ==> BatchOf([record], 1) && [record] == Records(1, acts))
    ensures IsPath(ap, Start(stream, p0), appended) && IsPath(ap, Start(stream, p0), moves)
    ensures var a, d := At(ap, p0, stream, appended), At(ap, p0, stream, moves);
      && a.s.orphans == {} && d.s.log == a.s.log && d.s.orphans == {1}
      && d.s.role.Down? && d.s.w == 0 && d.leader == SeqCell(0, None)
      && |d.s.log| == 4 && d.s.log[0].IsCommand() && Quiet(d.s.log) && d.s.log[2].payload == record.payload
      && d.lost == if step.Produce? then MintedTo(acts, 0, |acts|) else {}
  {
    var first := FirstCommand(ap, p0, stream);
    appended := AppendOne(ap, p0, stream, first, step, acts, record);
    moves := Kill(ap, p0, stream, appended);
    var log := At(ap, p0, stream, appended).s.log;
    assert log[0] == log[..2][0] && log[1] == log[..2][1];
  }

  const SOME_REJECT := Reject(NIL_REQUEST, ProcessingError, "")

  /** After a lost batch of the first Command, the next incarnation is about to dispatch it again. */
  lemma {:induction false} DispatchedAgain(ap: Applier, p0: Projection, stream: int, crashed: seq<Move>)
    returns (moves: seq<Move>)
    requires IsPath(ap, Start(stream, p0), crashed)
    requires var c := At(ap, p0, stream, crashed);
      c.s.role.Down? && c.s.w == 0 && |c.s.log| == 4 && c.s.log[0].IsCommand() && Quiet(c.s.log)
    ensures IsPath(ap, Start(stream, p0), moves)
    ensures var c, d := At(ap, p0, stream, crashed), At(ap, p0, stream, moves);
      && AtCommand(d.s) && d.s.role.cursor == 1 && d.s.w == 0 && d.s.log == c.s.log && d.s.orphans == c.s.orphans
      && d.leader == c.leader && d.lost == c.lost && Quiet(d.s.log)
  {
    moves := Reboot(ap, p0, stream, crashed, 0);
  }

  /**
   * A run that breaks the causal chain: a refusal is appended, a crash falls before its commit, and the
   * next incarnation answers the same Command again. Up to the second append the log passes the checker.
   */
  lemma {:induction false} RepeatBreaksChain(ap: Applier, p0: Projection, stream: int) returns (steps: seq<Step>)
    ensures IsRun(ap, Init(stream, p0), steps) && Enabled(Reached(ap, p0, stream, steps), AppendBatch(0))
    ensures var s := Reached(ap, p0, stream, steps);
      && EnvelopeOk(s.log) && CauseLogged(s.log, s.role.cursor)
      && !EnvelopeOk(Next(ap, s, AppendBatch(0)).log)
  {
    var start := Start(stream, p0);
    var appended, crashed := LoseBatch(ap, p0, stream, Refuse(SOME_REJECT, 0), [], RefusalOf(1, SOME_REJECT, 0)[0]);
    PathIsRun(ap, start, appended);
    NoOrphansNoRepeats(ap, Init(stream, p0), Plain(appended));
    RunsPass(ap, p0, stream, Plain(appended));
    var again := DispatchedAgain(ap, p0, stream, crashed);
    PathIsRun(ap, start, again);
    RepeatsAreOrphans(ap, p0, stream, Plain(again));
    var moves := Go(ap, p0, stream, again, Refuse(SOME_REJECT, 0), []);
    PathIsRun(ap, start, moves);
    steps := Plain(moves);
    AppendBreaksIff(ap, p0, stream, steps, 0);
  }

  /**
   * A run after which a minted suffix is minted again: a batch that only names its new child in a follow-up
   * Command is appended and loses its commit, so the counter is back where it was, and both the old
   * follow-up and the Command that minted for it are still to be dispatched.
   */
  lemma {:induction false} LostMintsComeBack(ap: Applier, p0: Projection, stream: int) returns (moves: seq<Move>)
    ensures IsPath(ap, Start(stream, p0), moves)
    ensures var c := At(ap, p0, stream, moves);
      && AtCommand(c.s) && 0 in c.lost && MintedLater(ap, p0, stream, moves, 0)
      && c.s.w == 0 && |c.s.log| == 4 && c.s.log[2].IsCommand()
  {
    MintForFollowUp();
    var appended, crashed := LoseBatch(ap, p0, stream, Produce([FOLLOW_UP]), MINT_AND_NAME, FOLLOW_UP);
    moves := DispatchedAgain(ap, p0, stream, crashed);
    var c := At(ap, p0, stream, moves);
    assert Covers(0, c.s.log, |c.s.log|);
    MintedLaterIff(ap, p0, stream, moves, 0);
  }

  const MINT_AND_NAME := [Mint, EmitCommand(SOME_COMMAND, 0)]
  const FOLLOW_UP := Entry(NIL_ID, NIL_ID, Some(1), 0, CommandPayload(SOME_COMMAND))

  lemma {:induction false} MintForFollowUp()
    ensures Records(1, MINT_AND_NAME) == [FOLLOW_UP] && 0 in MintedTo(MINT_AND_NAME, 0, |MINT_AND_NAME|)
  {
    assert RecordsTo(1, MINT_AND_NAME, 1) == [];
    assert Records(1, MINT_AND_NAME) == [] + [FOLLOW_UP];
    assert MintedTo(MINT_AND_NAME, 0, 1) == {0};
  }

  // ---------- A stale report ----------

  const SOME_EVENT := OtherEvent("")
  const EVENT_RECORD := Entry(NIL_ID, NIL_ID, Some(1), 0, EventPayload(SOME_EVENT))

  lemma {:induction false} EmitsOne()
    ensures Records(1, [EmitEvent(SOME_EVENT, 0)]) == [EVENT_RECORD] && BatchOf([EVENT_RECORD], 1)
  {
    var acts := [EmitEvent(SOME_EVENT, 0)];
    assert RecordsTo(1, acts, 0) == [] && RecordsTo(1, acts, 1) == [] + [EVENT_RECORD];
  }

  /** The log of the stale run: a Command, its Event-bearing batch, and a second client's Command. */
  ghost predicate StaleLog(log: seq<Entry>)
  {
    && |log| == 6 && log[0].IsCommand() && log[1].IsNoop() && log[2].IsEvent() && log[3].IsNoop()
    && log[4].IsCommand() && log[5].IsNoop()
  }

  /** Another client's Command lands behind a batch in flight. */
  lemma {:induction false} ThenClient(ap: Applier, p0: Projection, stream: int, before: seq<Move>)
    returns (moves: seq<Move>)
    requires IsPath(ap, Start(stream, p0), before) && At(ap, p0, stream, before).s.role.Live?
    ensures IsPath(ap, Start(stream, p0), moves)
    ensures var c, d := At(ap, p0, stream, before), At(ap, p0, stream, moves);
      && d.s == c.s.(log := d.s.log) && |d.s.log| == |c.s.log| + 2 && c.s.log <= d.s.log
      && d.s.log[|c.s.log|].IsCommand() && d.s.log[|c.s.log| + 1].IsNoop()
  {
    moves := Go(ap, p0, stream, before, ClientAppend(SOME_COMMAND, 0, 0), []);
  }

  /** A read-back of that log from its start ends at the Event batch's Noop. */
  lemma {:induction false} StaleResume(log: seq<Entry>, r: nat)
    requires StaleLog(log) && IsResume(log, 0, 6, r)
    ensures r == 4
  {
    assert log[2].IsEvent() && SameRun(log, 2, 3);
    assert OpenBatch(log, 0, 3) && Closes(log, 0, 4);
    forall e | 0 <= e < 5 && log[e].IsEvent() ensures !SameRun(log, e, 5) { assert e <= 3 && log[3].IsNoop(); }
    assert !Closes(log, 0, 6) && !Closes(log, 0, 5);
  }

  /** An Event-bearing batch appended, a second client's Command behind it, and the leader killed before the commit. */
  lemma {:induction false} LoseEvent(ap: Applier, p0: Projection, stream: int) returns (moves: seq<Move>)
    ensures IsPath(ap, Start(stream, p0), moves)
    ensures var c := At(ap, p0, stream, moves); c.s.role.Down? && c.s.w == 0 && StaleLog(c.s.log)
  {
    var appended := AppendEvent(ap, p0, stream);
    moves := ThenClient(ap, p0, stream, appended);
    moves := Kill(ap, p0, stream, moves);
  }

  lemma {:induction false} AppendEvent(ap: Applier, p0: Projection, stream: int) returns (moves: seq<Move>)
    ensures IsPath(ap, Start(stream, p0), moves)
    ensures var c := At(ap, p0, stream, moves);
      && c.s.role.Live? && c.s.role.stage.Appended? && c.s.w == 0
      && |c.s.log| == 4 && c.s.log[0].IsCommand() && c.s.log[1].IsNoop() && c.s.log[2].IsEvent() && c.s.log[3].IsNoop()
  {
    EmitsOne();
    var first := FirstCommand(ap, p0, stream);
    moves := AppendOne(ap, p0, stream, first, Produce([EVENT_RECORD]), [EmitEvent(SOME_EVENT, 0)], EVENT_RECORD);
    var four := At(ap, p0, stream, moves).s.log;
    assert four[0] == four[..2][0] && four[1] == four[..2][1];
  }

  /** A first Command refused: the treatment of it, from the dispatch to the announcement. */
  lemma {:induction false} RefuseFirst(ap: Applier, s: State) returns (steps: seq<Step>)
    requires AtCommand(s) && s.role.trace.dispatched == []
    ensures IsRun(ap, s, steps)
    ensures var r := After(ap, s, steps).role;
      r.Live? && r.stage.Reading? && r.boot == s.role.boot && r.start == s.role.start && r.trace.firstRefused
  {
    RunSnoc(ap, s, [], Refuse(SOME_REJECT, 0));
    steps := [] + [Refuse(SOME_REJECT, 0)];
    RunSnoc(ap, s, steps, AppendBatch(0));
    steps := steps + [AppendBatch(0)];
    RunSnoc(ap, s, steps, Commit);
    steps := steps + [Commit];
    RunSnoc(ap, s, steps, Announce);
    steps := steps + [Announce];
  }

  /**
   * A run that reports an Event its incarnation never committed: recovery folds a lost batch, and the first
   * Command the new incarnation reads is refused.
   */
  lemma {:induction false} StaleEventReported(ap: Applier, p0: Projection, stream: int) returns (steps: seq<Step>)
    ensures IsRun(ap, Init(stream, p0), steps)
    ensures var s := Reached(ap, p0, stream, steps);
      && s.role.Live? && s.role.stage.Reading? && s.w <= |s.log|
      && s.role.trace.reported != EventsIn(s.log, s.role.start, s.w)
  {
    var lost := LoseEvent(ap, p0, stream);
    var again := Reboot(ap, p0, stream, lost, 0);
    var d := At(ap, p0, stream, again);
    StaleResume(d.s.log, d.s.w);
    PathIsRun(ap, Start(stream, p0), again);
    var on := RefuseFirst(ap, d.s);
    RunConcat(ap, Init(stream, p0), Plain(again), on);
    steps := Plain(again) + on;
    ReportsExactly(ap, p0, stream, steps);
  }
}
