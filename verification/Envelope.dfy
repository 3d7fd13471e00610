/** The checker of a log's envelope and causal chain, and which of the engine's logs pass it. */
module Envelope {
  import opened Entries
  import opened LogShape
  import opened Protocol
  import opened Residue
  import opened Safety
  import opened Incarnation
  import opened Guarantees

  // ---------- What the checker demands ----------

  /** A batch is in progress just before index `i`. */
  ghost predicate OpenAt(log: seq<Entry>, i: int)
    requires 0 <= i <= |log|
  {
    i > 0 && log[i - 1].cause.Some? && !log[i - 1].IsNoop()
  }

  ghost predicate EntryOk(log: seq<Entry>, i: int)
    requires 0 <= i < |log|
  {
    match log[i].cause
    case None =>
      !OpenAt(log, i) && (log[i].IsNoop() || (i + 1 < |log| && log[i + 1].cause == None && log[i + 1].IsNoop()))
    case Some(c) =>
      if OpenAt(log, i) then log[i - 1].cause == Some(c)
      else 1 <= c <= i && log[c - 1].IsCommand() && forall j | 0 <= j < i :: log[j].cause != Some(c)
  }

  ghost predicate ChainOk(log: seq<Entry>)
  {
    (forall i | 0 <= i < |log| :: EntryOk(log, i)) && !OpenAt(log, |log|)
  }

  // ---------- The checker ----------

  /** `assert_cause_points_at_a_command`: the cause names an earlier entry, and a Command. */
  predicate PointsAtCommand(entries: seq<Entry>, cause: int, position: nat)
    requires position <= |entries|
  {
    var index := cause - 1;
    0 <= index < position && entries[index].IsCommand()
  }

  /** `assert_causal_chain`: false where the original panics. */
  method AssertCausalChain(entries: seq<Entry>) returns (ok: bool)
    ensures ok <==> ChainOk(entries)
  {
    var open: Option<int> := None;
    var committed: set<int> := {};
    var i := 0;
    while i < |entries|
      invariant 0 <= i <= |entries|
      invariant open == if OpenAt(entries, i) then entries[i - 1].cause else None
      invariant forall c :: c in committed <==> exists j :: 0 <= j < i && entries[j].cause == Some(c)
      invariant forall j | 0 <= j < i :: EntryOk(entries, j)
    {
      var entry := entries[i];
      if entry.cause.None? {
        if open.Some? {
          assert !EntryOk(entries, i);
          return false;
        }
        if !entry.IsNoop() {
          if i + 1 >= |entries| || !(entries[i + 1].cause.None? && entries[i + 1].IsNoop()) {
            assert !EntryOk(entries, i);
            return false;
          }
        }
      } else {
        var cause := entry.cause.value;
        if open != Some(cause) {
          if open.Some? || cause in committed || !PointsAtCommand(entries, cause, i) {
            assert !EntryOk(entries, i);
            return false;
          }
          committed := committed + {cause};
          open := Some(cause);
        }
        if entry.IsNoop() { open := None; }
      }
      i := i + 1;
    }
    ok := open.None?;
  }

  ghost predicate EnvelopeOk(log: seq<Entry>)
  {
    && log != []
    && Dense(log[0].streamId, log)
    && ChainOk(log)
  }

  /** `assert_envelope` without its check of the append stamps. */
  method AssertEnvelope(entries: seq<Entry>) returns (ok: bool)
    ensures ok <==> EnvelopeOk(entries)
  {
    if entries == [] { return false; }
    var position := 0;
    while position < |entries|
      invariant 0 <= position <= |entries|
      invariant forall j | 0 <= j < position ::
        entries[j].entryId == j + 1 && entries[j].streamId == entries[0].streamId
    {
      var entry := entries[position];
      if entry.streamId != entries[0].streamId || entry.entryId != position + 1 { return false; }
      position := position + 1;
    }
    ok := AssertCausalChain(entries);
  }

  // ---------- Which engine logs pass ----------

  lemma RunIsOpen(log: seq<Entry>, j: int, i: int)
    requires RunsShareCause(log) && 0 <= j < i < |log| && log[j].cause.Some? && SameRun(log, j, i)
    ensures OpenAt(log, i)
  {
    RunCause(log, j, i - 1);
  }

  lemma StartIsFirst(log: seq<Entry>, i: int, k: int)
    requires ChainOk(log) && 0 <= i < k < |log| && log[k - 1].IsNoop() && log[k].cause.Some?
    ensures log[i].cause != log[k].cause
  {
    assert EntryOk(log, k);
  }

  lemma OneBatchPasses(stream: int, log: seq<Entry>, i: int)
    requires Shape(stream, log) && OneBatchPerCommand(log) && 0 <= i < |log|
    ensures EntryOk(log, i)
  {
    assert CauseOk(log, i);
    if i > 0 { assert log[i - 1].IsNoop() || log[i - 1 + 1].cause == log[i - 1].cause; }
    if log[i].cause.None? && !log[i].IsNoop() {
      assert log[i].IsNoop() || log[i + 1].cause == log[i].cause;
    }
    if log[i].cause.Some? && !OpenAt(log, i) {
      forall j | 0 <= j < i ensures log[j].cause != log[i].cause {
        if log[j].cause == log[i].cause { RunIsOpen(log, j, i); }
      }
    }
  }

  /** The start of the append that index `j` lies in, when a Noop separates it from `i`. */
  lemma {:induction false} RunStart(log: seq<Entry>, i: int, j: int) returns (k: int)
    requires 0 <= i <= j < |log| && !SameRun(log, i, j)
    ensures i < k <= j && log[k - 1].IsNoop() && SameRun(log, k, j)
    decreases j - i
  {
    if log[j - 1].IsNoop() {
      k := j;
    } else {
      k := RunStart(log, i, j - 1);
    }
  }

  lemma PassingHasOneBatch(stream: int, log: seq<Entry>)
    requires Shape(stream, log) && ChainOk(log)
    ensures OneBatchPerCommand(log)
  {
    forall i, j | 0 <= i < j < |log| && log[i].cause.Some? && log[j].cause == log[i].cause ensures SameRun(log, i, j) {
      if !SameRun(log, i, j) {
        var k := RunStart(log, i, j);
        RunCause(log, k, j);
        StartIsFirst(log, i, k);
      }
    }
  }

  /** An engine log passes the checker exactly when no Command has two batches in it. */
  lemma PassesIff(stream: int, log: seq<Entry>)
    requires Shape(stream, log) && log != []
    ensures EnvelopeOk(log) <==> OneBatchPerCommand(log)
  {
    assert Dense(log[0].streamId, log);
    if OneBatchPerCommand(log) {
      forall i | 0 <= i < |log| ensures EntryOk(log, i) { OneBatchPasses(stream, log, i); }
    } else if ChainOk(log) {
      PassingHasOneBatch(stream, log);
    }
  }

  lemma AppendKeepsNoRepeats(ap: Applier, p0: Projection, s: State, a: Step)
    requires LogInv(s) && RoleInv(ap, p0, s) && Enabled(s, a) && a.AppendBatch? && OneBatchPerCommand(s.log)
    ensures OneBatchPerCommand(Next(ap, s, a).log) <==> s.role.cursor !in s.orphans
  {
    var c := s.role.cursor;
    var group := BatchGroupFits(s, s.role.stage.batch, c, a.noopAt);
    AppendKeepsOneBatch(s.stream, s.log, group, c);
    assert CauseLogged(s.log, c) <==> c in s.orphans;
  }

  /** A repeat is never undone. */
  lemma RepeatStays(log: seq<Entry>, longer: seq<Entry>)
    requires log <= longer && OneBatchPerCommand(longer)
    ensures OneBatchPerCommand(log)
  {
    assert forall i | 0 <= i < |log| :: log[i] == longer[i];
  }

  /** Some append of the run answers a Command whose earlier batch a crash had orphaned. */
  ghost predicate AnswersOrphan(ap: Applier, s: State, steps: seq<Step>)
    requires IsRun(ap, s, steps)
    decreases |steps|
  {
    steps != [] &&
    ((steps[0].AppendBatch? && s.role.cursor in s.orphans) || AnswersOrphan(ap, Next(ap, s, steps[0]), steps[1..]))
  }

  lemma StepKeepsOneBatch(ap: Applier, p0: Projection, s: State, a: Step)
    requires Inv(ap, p0, s) && Enabled(s, a)
    ensures OneBatchPerCommand(Next(ap, s, a).log) <==>
      OneBatchPerCommand(s.log) && !(a.AppendBatch? && s.role.cursor in s.orphans)
  {
    if OneBatchPerCommand(Next(ap, s, a).log) { RepeatStays(s.log, Next(ap, s, a).log); }
    if OneBatchPerCommand(s.log) {
      if a.AppendBatch? {
        AppendKeepsNoRepeats(ap, p0, s, a);
      } else if a.ClientAppend? {
        var group := ClientGroupFits(s, a.command, a.at, a.noopAt);
        ClientKeepsOneBatch(s.log, group);
      }
    }
  }

  lemma {:induction false} RunKeepsOneBatch(ap: Applier, p0: Projection, s: State, steps: seq<Step>)
    requires FullInv(ap, p0, s) && IsRun(ap, s, steps)
    ensures OneBatchPerCommand(After(ap, s, steps).log) <==> OneBatchPerCommand(s.log) && !AnswersOrphan(ap, s, steps)
    decreases |steps|
  {
    if steps != [] {
      StepKeepsFull(ap, p0, s, steps[0]);
      StepKeepsOneBatch(ap, p0, s, steps[0]);
      RunKeepsOneBatch(ap, p0, Next(ap, s, steps[0]), steps[1..]);
    }
  }

  /** The log of a run passes the checker exactly when no append of the run answered an orphaned Command. */
  lemma RunsPass(ap: Applier, p0: Projection, stream: int, steps: seq<Step>)
    requires IsRun(ap, Init(stream, p0), steps) && Reached(ap, p0, stream, steps).log != []
    ensures EnvelopeOk(Reached(ap, p0, stream, steps).log) <==> !AnswersOrphan(ap, Init(stream, p0), steps)
  {
    ReachedInv(ap, p0, stream, steps);
    RunKeepsOneBatch(ap, p0, Init(stream, p0), steps);
    PassesIff(Reached(ap, p0, stream, steps).stream, Reached(ap, p0, stream, steps).log);
  }

  /** In particular, as long as no crash has orphaned a batch. */
  lemma {:induction false} NoOrphansNoRepeats(ap: Applier, s: State, steps: seq<Step>)
    requires IsRun(ap, s, steps) && After(ap, s, steps).orphans == {}
    ensures !AnswersOrphan(ap, s, steps) && s.orphans == {}
    decreases |steps|
  {
    if steps != [] { NoOrphansNoRepeats(ap, Next(ap, s, steps[0]), steps[1..]); }
  }

  /** An append breaks a passing log exactly when an earlier crash orphaned a batch of the same Command. */
  lemma AppendBreaksIff(ap: Applier, p0: Projection, stream: int, steps: seq<Step>, noopAt: Timestamp)
    requires IsRun(ap, Init(stream, p0), steps)
    requires var s := Reached(ap, p0, stream, steps); Enabled(s, AppendBatch(noopAt)) && EnvelopeOk(s.log)
    ensures var s := Reached(ap, p0, stream, steps);
      EnvelopeOk(Next(ap, s, AppendBatch(noopAt)).log) <==> s.role.cursor !in s.orphans
  {
    ReachedInv(ap, p0, stream, steps);
    var s := Reached(ap, p0, stream, steps);
    var a := AppendBatch(noopAt);
    PassesIff(s.stream, s.log);
    AppendKeepsNoRepeats(ap, p0, s, a);
    StepKeepsLog(ap, p0, s, a);
    PassesIff(s.stream, Next(ap, s, a).log);
  }
}
