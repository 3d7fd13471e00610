/** What a restart resumes from, which Commands it still dispatches, and which it drops. */
module Restart {
  import opened Entries
  import opened Protocol
  import opened Residue
  import opened Safety
  import opened Incarnation
  import opened Readback
  import opened Guarantees
  import opened Turns

  // ---------- Where recovery leaves the watermark ----------

  ghost predicate ResumeInv(s: State)
  {
    match s.role
    case Down => true
    case Recovering(boot, _, _, _) => boot <= s.w && (s.w == boot || Closes(s.log, boot, s.w))
    case Live(boot, start, _, _, _, _, _) => boot <= start && (start == boot || Closes(s.log, boot, start))
  }

  lemma GrowCloses(log: seq<Entry>, longer: seq<Entry>, w: nat, p: nat)
    requires log <= longer && Closes(log, w, p)
    ensures Closes(longer, w, p)
  {
    assert longer == log + longer[|log|..];
    GrowOpen(log, longer[|log|..], w, p - 1);
  }

  lemma GrowResume(s: State, longer: seq<Entry>)
    requires ResumeInv(s) && s.log <= longer
    ensures ResumeInv(s.(log := longer))
  {
    match s.role {
      case Down =>
      case Recovering(boot, _, _, _) => if s.w != boot { GrowCloses(s.log, longer, boot, s.w); }
      case Live(boot, start, _, _, _, _, _) => if start != boot { GrowCloses(s.log, longer, boot, start); }
    }
  }

  lemma StepKeepsResume(ap: Applier, p0: Projection, s: State, a: Step)
    requires StoreInv(ap, p0, s) && RoleInv(ap, p0, s) && ResumeInv(s) && Enabled(s, a)
    ensures ResumeInv(Next(ap, s, a))
  {
    if a.ClientAppend? || a.AppendBatch? {
      GrowResume(s, Next(ap, s, a).log);
    } else if a.RecoverRead? && s.log[s.role.pos - 1].IsNoop() && s.role.txn.Some? {
      OpenFromBelow(s.log, s.role.boot, s.w, s.role.pos - 1);
    }
  }

  lemma OpenFromBelow(log: seq<Entry>, boot: nat, w: nat, pos: nat)
    requires boot <= w && pos <= |log| && OpenBatch(log, w, pos)
    ensures OpenBatch(log, boot, pos)
  {
    var e :| w <= e < pos && log[e].IsEvent() && SameRun(log, e, pos);
    assert boot <= e;
  }

  lemma {:induction false} RunKeepsResume(ap: Applier, p0: Projection, s: State, steps: seq<Step>)
    requires FullInv(ap, p0, s) && ResumeInv(s) && IsRun(ap, s, steps)
    ensures FullInv(ap, p0, After(ap, s, steps)) && ResumeInv(After(ap, s, steps))
    decreases |steps|
  {
    if steps != [] {
      StepKeepsFull(ap, p0, s, steps[0]);
      StepKeepsResume(ap, p0, s, steps[0]);
      RunKeepsResume(ap, p0, Next(ap, s, steps[0]), steps[1..]);
    }
  }

  /**
   * When recovery ends, the watermark is the Noop of the Event-bearing batch above the one it booted
   * with, or that one itself if there is none; and the leader starts reading right above it.
   */
  lemma RecoveryResumesAt(ap: Applier, p0: Projection, stream: int, steps: seq<Step>)
    requires IsRun(ap, Init(stream, p0), steps) && Enabled(Reached(ap, p0, stream, steps), RecoverDone)
    ensures var s := Reached(ap, p0, stream, steps);
      && IsResume(s.log, s.role.boot, |s.log|, s.w)
      && Next(ap, s, RecoverDone).role.start == s.w && Next(ap, s, RecoverDone).role.cursor == s.w + 1
  {
    var s := Reached(ap, p0, stream, steps);
    RunKeepsResume(ap, p0, Init(stream, p0), steps);
    DoneKeepsRole(ap, p0, s);
    assert s.role.pos == |s.log| + 1;
    forall p | s.w < p <= |s.log| ensures !Closes(s.log, s.role.boot, p) {
      forall e | s.role.boot <= e < p - 1 && s.log[e].IsEvent() ensures !SameRun(s.log, e, p - 1) {
        assert e < s.w;
        assert s.log[s.w - 1].IsNoop();
      }
    }
  }

  // ---------- What a new incarnation dispatches ----------

  /** The Commands an incarnation has dispatched are exactly those between its start and its cursor. */
  lemma DispatchesExactly(ap: Applier, p0: Projection, stream: int, steps: seq<Step>, p: nat)
    requires IsRun(ap, Init(stream, p0), steps)
    requires var r := Reached(ap, p0, stream, steps).role; r.Live? && r.stage.Reading?
    ensures var s := Reached(ap, p0, stream, steps);
      p in s.role.trace.dispatched <==> s.role.start < p < s.role.cursor && p <= |s.log| && s.log[p - 1].IsCommand()
  {
    ReachedInv(ap, p0, stream, steps);
    var s := Reached(ap, p0, stream, steps);
    CommandsInMember(s.log, s.role.start, s.role.cursor - 1, p);
  }

  lemma DispatchedAbove(s: State, x: nat)
    requires WorkInv(s) && s.role.Live? && x <= s.role.start
    ensures forall d | d in s.role.trace.dispatched :: d > x
  {
    forall d | d in s.role.trace.dispatched ensures d > x {
      CommandsInMember(s.log, s.role.start, if s.role.stage.Reading? then s.role.cursor - 1 else s.role.cursor, d);
    }
  }

  /** No run from here ever has an incarnation that dispatched `x` or anything below. */
  lemma {:induction false} NeverAtOrBelow(ap: Applier, p0: Projection, s: State, steps: seq<Step>, x: nat)
    requires FullInv(ap, p0, s) && IsRun(ap, s, steps) && x <= s.w && (s.role.Live? ==> x <= s.role.start)
    ensures var s' := After(ap, s, steps);
      x <= s'.w && (s'.role.Live? ==> x <= s'.role.start && forall d | d in s'.role.trace.dispatched :: d > x)
    decreases |steps|
  {
    if steps == [] {
      if s.role.Live? { DispatchedAbove(s, x); }
    } else {
      StepKeepsFull(ap, p0, s, steps[0]);
      StepKeepsBound(ap, p0, s, steps[0], x);
      NeverAtOrBelow(ap, p0, Next(ap, s, steps[0]), steps[1..], x);
    }
  }

  lemma StepKeepsBound(ap: Applier, p0: Projection, s: State, a: Step, x: nat)
    requires RoleInv(ap, p0, s) && Enabled(s, a) && x <= s.w && (s.role.Live? ==> x <= s.role.start)
    ensures var s' := Next(ap, s, a); x <= s'.w && (s'.role.Live? ==> x <= s'.role.start)
  {
  }

  /** Some run from `s` has an incarnation that dispatches the Command at `p`. */
  ghost predicate EverDispatched(ap: Applier, s: State, p: nat)
  {
    exists steps :: IsRun(ap, s, steps) && After(ap, s, steps).role.Live? &&
      p in After(ap, s, steps).role.trace.dispatched
  }

  /** A live leader reading at or below the Command at `p` can go on to dispatch it. */
  lemma {:induction false} CanReach(ap: Applier, p0: Projection, s: State, p: nat) returns (steps: seq<Step>)
    requires FullInv(ap, p0, s) && s.role.Live? && s.role.stage.Reading?
    requires s.role.cursor <= p <= |s.log| && s.log[p - 1].IsCommand()
    ensures IsRun(ap, s, steps) && After(ap, s, steps).role.Live? && p in After(ap, s, steps).role.trace.dispatched
    decreases p - s.role.cursor
  {
    var refusal := Refuse(Reject(NIL_REQUEST, ProcessingError, ""), 0);
    if s.role.cursor == p {
      steps := [refusal];
      var s1 := Next(ap, s, refusal);
      assert IsRun(ap, s1, []) && steps[1..] == [];
      assert After(ap, s, steps) == After(ap, s1, []) == s1;
    } else if s.log[s.role.cursor - 1].IsCommand() {
      var s', first := OneCommand(ap, p0, s);
      var rest := CanReach(ap, p0, s', p);
      RunConcat(ap, s, first, rest);
      steps := first + rest;
    } else {
      StepKeepsFull(ap, p0, s, Skip);
      var rest := CanReach(ap, p0, Next(ap, s, Skip), p);
      steps := [Skip] + rest;
      assert steps[1..] == rest;
    }
  }

  /** A whole turn of the live loop on a Command. */
  lemma OneCommand(ap: Applier, p0: Projection, s: State) returns (s': State, steps: seq<Step>)
    requires FullInv(ap, p0, s) && AtCommand(s)
    ensures IsRun(ap, s, steps) && After(ap, s, steps) == s' && FullInv(ap, p0, s')
    ensures s'.role.Live? && s'.role.stage.Reading? && s'.role.cursor == s.role.cursor + 1 && s.log <= s'.log
  {
    var reject := Reject(NIL_REQUEST, ProcessingError, "");
    steps := Turn(Refuse(reject, 0), 0);
    TurnIsRun(ap, s, Refuse(reject, 0), 0, RefusalOf(s.role.cursor, reject, 0), s.store, s.role.lastApplied);
    RunKeepsFull(ap, p0, s, steps);
    s' := After(ap, s, steps);
  }

  /** One more step of a run. */
  lemma Take(ap: Applier, p0: Projection, s: State, steps: seq<Step>, a: Step) returns (longer: seq<Step>)
    requires IsRun(ap, s, steps) && Enabled(After(ap, s, steps), a) && FullInv(ap, p0, After(ap, s, steps))
    ensures IsRun(ap, s, longer) && After(ap, s, longer) == Next(ap, After(ap, s, steps), a) &&
      FullInv(ap, p0, After(ap, s, longer))
  {
    longer := steps + [a];
    RunSnoc(ap, s, steps, a);
    StepKeepsFull(ap, p0, After(ap, s, steps), a);
  }

  /**
   * Exactly what a restart drops: at the moment recovery hands over to the live loop, a Command in
   * the log will be dispatched by some continuation if and only if it lies above the watermark.
   */
  lemma DroppedIff(ap: Applier, p0: Projection, stream: int, steps: seq<Step>, p: nat)
    requires IsRun(ap, Init(stream, p0), steps) && Enabled(Reached(ap, p0, stream, steps), RecoverDone)
    requires var log := Reached(ap, p0, stream, steps).log; 1 <= p <= |log| && log[p - 1].IsCommand()
    ensures var s := Reached(ap, p0, stream, steps);
      EverDispatched(ap, Next(ap, s, RecoverDone), p) <==> p > s.w
  {
    ReachedInv(ap, p0, stream, steps);
    var s := Reached(ap, p0, stream, steps);
    var s1 := Next(ap, s, RecoverDone);
    StepKeepsFull(ap, p0, s, RecoverDone);
    if p > s.w {
      var on := CanReach(ap, p0, s1, p);
    } else {
      forall on | IsRun(ap, s1, on) && After(ap, s1, on).role.Live?
        ensures p !in After(ap, s1, on).role.trace.dispatched
      {
        NeverAtOrBelow(ap, p0, s1, on, s.w);
      }
    }
  }

  /**
   * The watermark is not "the last Command whose batch was folded": a run exists after which the log
   * holds a Command that no append ever answered and no continuation ever dispatches.
   */
  lemma FollowUpsCanBeLost(ap: Applier, p0: Projection, stream: int) returns (steps: seq<Step>, p: nat)
    ensures IsRun(ap, Init(stream, p0), steps)
    ensures var s := Reached(ap, p0, stream, steps);
      && s.role.Live? && 1 <= p <= |s.log| && s.log[p - 1].IsCommand()
      && !CauseLogged(s.log, p) && !EverDispatched(ap, s, p)
  {
    var init := Init(stream, p0);
    var before := BootedWithCommand(ap, p0, stream);
    var followUp := Entry(NIL_ID, NIL_ID, Some(1), 0, CommandPayload(Command(None, "")));
    steps := CommitAndRestart(ap, p0, stream, before, [followUp]);
    p := 3;
    FollowUpLog(stream, Reached(ap, p0, stream, before).log, followUp);
    DroppedIff(ap, p0, stream, steps, p);
    RunSnoc(ap, init, steps, RecoverDone);
    steps := steps + [RecoverDone];
  }

  lemma FollowUpLog(stream: int, log: seq<Entry>, followUp: Entry)
    requires |log| == 2 && log[0].cause == log[1].cause == None && followUp.IsCommand() && followUp.cause == Some(1)
    ensures var longer := AppendTo(stream, log, [followUp] + [NoopOf(1, 0)], 0);
      |longer| == 4 && longer[2].IsCommand() && !CauseLogged(longer, 3)
  {
  }

  /** A run to a live leader about to dispatch the log's first and only Command. */
  lemma BootedWithCommand(ap: Applier, p0: Projection, stream: int) returns (steps: seq<Step>)
    ensures IsRun(ap, Init(stream, p0), steps)
    ensures var s := Reached(ap, p0, stream, steps);
      && AtCommand(s) && s.role.cursor == 1 && s.stream == stream && |s.log| == 2 &&
        s.log[0].cause == s.log[1].cause == None
  {
    var init := Init(stream, p0);
    steps := [];
    steps := Take(ap, p0, init, steps, Boot);
    steps := Take(ap, p0, init, steps, RecoverDone);
    steps := Take(ap, p0, init, steps, ClientAppend(Command(None, ""), 0, 0));
  }

  /** Treat the Command, die, and boot again to where recovery has nothing to read. */
  lemma CommitAndRestart(ap: Applier, p0: Projection, stream: int, before: seq<Step>, batch: seq<Entry>)
    returns (steps: seq<Step>)
    requires IsRun(ap, Init(stream, p0), before)
    requires var s := Reached(ap, p0, stream, before); AtCommand(s) && BatchOf(batch, s.role.cursor)
    ensures IsRun(ap, Init(stream, p0), steps)
    ensures var s := Reached(ap, p0, stream, before);
      var s' := Reached(ap, p0, stream, steps);
      && s'.w == |s'.log| && Enabled(s', RecoverDone)
      && s'.log == AppendTo(s.stream, s.log, batch + [NoopOf(s.role.cursor, 0)], 0)
  {
    var init, s := Init(stream, p0), Reached(ap, p0, stream, before);
    var turn := Turn(Produce(batch), 0);
    TurnIsRun(ap, s, Produce(batch), 0, batch, Fold(ap, s.store, batch), Events(batch));
    RunConcat(ap, init, before, turn);
    RunSnoc(ap, init, before + turn, Crash);
    RunSnoc(ap, init, before + turn + [Crash], Boot);
    steps := before + turn + [Crash] + [Boot];
  }
}
