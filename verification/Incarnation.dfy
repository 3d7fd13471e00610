/** What one incarnation of the leader dispatches and reports, tied to the log it read and wrote. */
module Incarnation {
  import opened Entries
  import opened Protocol
  import opened Residue
  import opened Safety

  /** The positions of the Commands in positions a+1..=b, in log order. */
  function CommandsIn(log: seq<Entry>, a: nat, b: nat): seq<nat>
    requires b <= |log|
  {
    if b <= a then []
    else if log[b - 1].IsCommand() then CommandsIn(log, a, b - 1) + [b]
    else CommandsIn(log, a, b - 1)
  }

  /** The Events at positions a+1..=b, in log order. */
  function EventsIn(log: seq<Entry>, a: nat, b: nat): seq<Event>
    requires b <= |log|
  {
    if b <= a then []
    else if log[b - 1].IsEvent() then EventsIn(log, a, b - 1) + [log[b - 1].payload.event]
    else EventsIn(log, a, b - 1)
  }

  lemma {:induction false} CommandsInMember(log: seq<Entry>, a: nat, b: nat, p: nat)
    requires b <= |log|
    ensures p in CommandsIn(log, a, b) <==> a < p <= b && log[p - 1].IsCommand()
    ensures Rising(CommandsIn(log, a, b), a + 1, b + 1)
    decreases b
  {
    if a < b { CommandsInMember(log, a, b - 1, p); }
  }

  lemma {:induction false} InPrefix(log: seq<Entry>, longer: seq<Entry>, a: nat, b: nat)
    requires b <= |log| && log <= longer
    ensures CommandsIn(longer, a, b) == CommandsIn(log, a, b)
    ensures EventsIn(longer, a, b) == EventsIn(log, a, b)
    decreases b
  {
    if a < b { InPrefix(log, longer, a, b - 1); }
  }

  lemma {:induction false} EventsSplit(log: seq<Entry>, a: nat, b: nat)
    requires a <= b <= |log|
    ensures EventsTo(log, b) == EventsTo(log, a) + EventsIn(log, a, b)
    decreases b
  {
    if a < b { EventsSplit(log, a, b - 1); }
  }

  /** The Events of a stretch of the log, in order and each once. */
  lemma {:induction false} EventsInExact(log: seq<Entry>, a: nat, b: nat) returns (idx: seq<int>)
    requires b <= |log|
    ensures ListsEvents(log, a, b, EventsIn(log, a, b), idx)
    decreases b
  {
    idx := [];
    if a < b {
      idx := EventsInExact(log, a, b - 1);
      idx := ListsOneMore(log, a, b, EventsIn(log, a, b - 1), idx);
    }
  }

  lemma CommitReports(ap: Applier, p: Projection, log: seq<Entry>, start: nat, w: nat, batch: seq<Entry>, c: int,
                      last: nat)
    requires Placed(log, batch, c, last) && start <= w <= last - 1 - |batch| && QuietBetween(log, w, last - 1 - |batch|)
    ensures EventsIn(log, start, last) == EventsIn(log, start, w) + Events(batch)
  {
    CommitFolds(ap, p, log, w, batch, c, last);
    EventsSplit(log, start, w);
    EventsSplit(log, start, last);
    var prefix := EventsTo(log, start);
    assert prefix + EventsIn(log, start, last) == prefix + (EventsIn(log, start, w) + Events(batch));
    assert (prefix + EventsIn(log, start, last))[|prefix|..] == EventsIn(log, start, last);
    assert (prefix + (EventsIn(log, start, w) + Events(batch)))[|prefix|..] == EventsIn(log, start, w) + Events(batch);
  }

  // ---------- The invariant of an incarnation ----------

  /** The batch whose Events are not yet committed. */
  ghost function Uncommitted(stage: Stage): seq<Entry>
  {
    if stage.Dispatched? || stage.Appended? then stage.batch else []
  }

  /** The batch whose outcome is not yet reported. */
  ghost function Unreported(stage: Stage): seq<Entry>
  {
    if stage.Reading? then [] else stage.batch
  }

  /** What the stale `last_applied` of recovery adds to the reports. */
  ghost function Stale(t: Trace): seq<Event>
  {
    if t.firstRefused then t.residue else []
  }

  /** What was dispatched and produced, against the log. */
  ghost predicate WorkInv(s: State)
  {
    s.role.Live? ==>
      var r := s.role;
      && r.start <= s.w <= |s.log| && r.start < r.cursor <= |s.log| + 1 && (!r.stage.Reading? ==> r.cursor <= |s.log|)
      && r.trace.dispatched == CommandsIn(s.log, r.start, if r.stage.Reading? then r.cursor - 1 else r.cursor)
      && Events(r.trace.produced) == EventsIn(s.log, r.start, s.w) + Events(Uncommitted(r.stage))
  }

  /** What was reported, against what was produced. */
  ghost predicate ReportInv(s: State)
  {
    s.role.Live? ==>
      var r := s.role;
      var t := r.trace;
      && (t.residue == [] <==> r.start == r.boot)
      && (t.dispatched == [] ==> r.stage.Reading? && !t.firstRefused && t.produced == [])
      && t.reported + (if r.stage.Reading? then [] else r.lastApplied) == Stale(t) + Events(t.produced)
      && r.lastApplied == (if r.stage.Reading? then (if t.dispatched == [] then t.residue else [])
                           else if t.firstRefused && |t.dispatched| == 1 then t.residue else Events(r.stage.batch))
      && (!r.stage.Reading? && |t.dispatched| == 1 ==> t.reported == [])
      && Rejects(t.produced) == t.refused + Rejects(Unreported(r.stage))
  }

  ghost function LastOf(events: seq<Event>): seq<Event> { if events == [] then [] else events[|events| - 1..] }

  /** What recovery leaves in `last_applied`: the last Event it folded, alone. */
  ghost predicate LeftoverInv(s: State)
  {
    match s.role
    case Down => true
    case Recovering(boot, pos, _, lastApplied) =>
      boot < pos <= |s.log| + 1 && lastApplied == LastOf(EventsIn(s.log, boot, pos - 1))
    case Live(boot, start, _, _, _, _, trace) =>
      boot <= start <= |s.log| && trace.residue == LastOf(EventsIn(s.log, boot, start))
  }

  // ---------- Every step keeps it ----------

  lemma DispatchKeepsWork(ap: Applier, s: State, a: Step)
    requires WorkInv(s) && Enabled(s, a) && (a.Produce? || a.Refuse?)
    ensures WorkInv(Next(ap, s, a))
  {
    var batch := if a.Produce? then a.batch else RefusalOf(s.role.cursor, a.reject, a.at);
    EventsConcat(ap, s.store, s.role.trace.produced, batch);
  }

  lemma GrowWork(s: State, longer: seq<Entry>)
    requires WorkInv(s) && s.log <= longer
    ensures WorkInv(s.(log := longer))
  {
    if s.role.Live? {
      InPrefix(s.log, longer, s.role.start, s.w);
      InPrefix(s.log, longer, s.role.start, if s.role.stage.Reading? then s.role.cursor - 1 else s.role.cursor);
    }
  }

  lemma AppendKeepsWork(ap: Applier, s: State, a: Step)
    requires WorkInv(s) && Enabled(s, a) && (a.ClientAppend? || a.AppendBatch?)
    ensures WorkInv(Next(ap, s, a))
  {
    GrowWork(s, Next(ap, s, a).log);
  }

  lemma CommitKeepsWork(ap: Applier, p0: Projection, s: State)
    requires RoleInv(ap, p0, s) && WorkInv(s) && Enabled(s, Commit)
    ensures WorkInv(Next(ap, s, Commit))
  {
    CommitReports(ap, p0, s.log, s.role.start, s.w, s.role.stage.batch, s.role.cursor, s.role.stage.last);
  }

  lemma AdvanceKeepsWork(ap: Applier, s: State, a: Step)
    requires WorkInv(s) && (a.Announce? || a.Skip?) && Enabled(s, a)
    ensures WorkInv(Next(ap, s, a))
  {
  }

  lemma StepKeepsWork(ap: Applier, p0: Projection, s: State, a: Step)
    requires StoreInv(ap, p0, s) && RoleInv(ap, p0, s) && WorkInv(s) && Enabled(s, a)
    ensures WorkInv(Next(ap, s, a))
  {
    if a.ClientAppend? || a.AppendBatch? {
      AppendKeepsWork(ap, s, a);
    } else if a.Produce? || a.Refuse? {
      DispatchKeepsWork(ap, s, a);
    } else if a.Commit? {
      CommitKeepsWork(ap, p0, s);
    } else if a.Announce? || a.Skip? {
      AdvanceKeepsWork(ap, s, a);
    }
  }

  lemma ProduceKeepsReports(ap: Applier, s: State, a: Step)
    requires ReportInv(s) && Enabled(s, a) && a.Produce?
    ensures ReportInv(Next(ap, s, a))
  {
    var t := s.role.trace;
    EventsConcat(ap, s.store, t.produced, a.batch);
    assert t.reported == t.reported + [] == Stale(t) + Events(t.produced);
    assert t.reported + Events(a.batch) == Stale(t) + (Events(t.produced) + Events(a.batch));
  }

  lemma RefuseKeepsReports(ap: Applier, s: State, a: Step)
    requires ReportInv(s) && Enabled(s, a) && a.Refuse?
    ensures ReportInv(Next(ap, s, a))
  {
    var t := s.role.trace;
    var batch := RefusalOf(s.role.cursor, a.reject, a.at);
    EventsConcat(ap, s.store, t.produced, batch);
    assert t.reported == t.reported + [] == Stale(t) + Events(t.produced);
    FoldQuiet(ap, s.store, batch, 0, 1);
    assert Events(batch) == [] && Events(t.produced) + [] == Events(t.produced);
  }

  lemma StepKeepsReports(ap: Applier, p0: Projection, s: State, a: Step)
    requires Inv(ap, p0, s) && ReportInv(s) && Enabled(s, a)
    ensures ReportInv(Next(ap, s, a))
  {
    if a.RecoverDone? {
      DoneKeepsRole(ap, p0, s);
    } else if a.Produce? {
      ProduceKeepsReports(ap, s, a);
    } else if a.Refuse? {
      RefuseKeepsReports(ap, s, a);
    }
  }

  lemma {:induction false} EventsInQuiet(log: seq<Entry>, a: nat, b: nat, c: nat)
    requires a <= b <= c <= |log| && QuietBetween(log, b, c)
    ensures EventsIn(log, a, c) == EventsIn(log, a, b)
    decreases c
  {
    if b < c { EventsInQuiet(log, a, b, c - 1); }
  }

  lemma GrowLeftover(s: State, longer: seq<Entry>)
    requires LeftoverInv(s) && s.log <= longer
    ensures LeftoverInv(s.(log := longer))
  {
    match s.role {
      case Down =>
      case Recovering(boot, pos, _, _) => InPrefix(s.log, longer, boot, pos - 1);
      case Live(boot, start, _, _, _, _, _) => InPrefix(s.log, longer, boot, start);
    }
  }

  lemma StepKeepsLeftover(ap: Applier, p0: Projection, s: State, a: Step)
    requires Inv(ap, p0, s) && LeftoverInv(s) && Enabled(s, a)
    ensures LeftoverInv(Next(ap, s, a))
  {
    if a.ClientAppend? || a.AppendBatch? {
      GrowLeftover(s, Next(ap, s, a).log);
    } else if a.RecoverDone? {
      DoneKeepsRole(ap, p0, s);
      EventsInQuiet(s.log, s.role.boot, s.w, |s.log|);
    }
  }

  ghost predicate FullInv(ap: Applier, p0: Projection, s: State)
  {
    Inv(ap, p0, s) && WorkInv(s) && ReportInv(s) && LeftoverInv(s)
  }

  lemma StepKeepsFull(ap: Applier, p0: Projection, s: State, a: Step)
    requires FullInv(ap, p0, s) && Enabled(s, a)
    ensures FullInv(ap, p0, Next(ap, s, a))
  {
    StepKeepsInv(ap, p0, s, a);
    StepKeepsWork(ap, p0, s, a);
    StepKeepsReports(ap, p0, s, a);
    StepKeepsLeftover(ap, p0, s, a);
  }

  lemma {:induction false} RunKeepsFull(ap: Applier, p0: Projection, s: State, steps: seq<Step>)
    requires FullInv(ap, p0, s) && IsRun(ap, s, steps)
    ensures FullInv(ap, p0, After(ap, s, steps))
    decreases |steps|
  {
    if steps != [] {
      StepKeepsFull(ap, p0, s, steps[0]);
      RunKeepsFull(ap, p0, Next(ap, s, steps[0]), steps[1..]);
    }
  }
}
