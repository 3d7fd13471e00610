/** What the protocol guarantees of every run, with crashes anywhere. */
module Guarantees {
  import opened Entries
  import opened LogShape
  import opened Protocol
  import opened Residue
  import opened Incarnation

  ghost function Reached(ap: Applier, p0: Projection, stream: int, steps: seq<Step>): State
    requires IsRun(ap, Init(stream, p0), steps)
  {
    After(ap, Init(stream, p0), steps)
  }

  lemma ReachedInv(ap: Applier, p0: Projection, stream: int, steps: seq<Step>)
    requires IsRun(ap, Init(stream, p0), steps)
    ensures FullInv(ap, p0, Reached(ap, p0, stream, steps))
  {
    RunKeepsFull(ap, p0, Init(stream, p0), steps);
  }

  /**
   * Crash consistency: the committed projection is the fold of exactly the Events at or below the
   * watermark; the Events above it are one batch's; and the live loop never reads an Event above
   * the watermark it holds.
   */
  lemma CrashConsistency(ap: Applier, p0: Projection, stream: int, steps: seq<Step>)
    requires IsRun(ap, Init(stream, p0), steps)
    ensures var s := Reached(ap, p0, stream, steps);
      && s.w <= |s.log| && Boundary(s.log, s.w)
      && s.store == FoldTo(ap, p0, s.log, s.w)
      && OneBatchAbove(s.log, s.w)
      && (s.role.Live? && s.role.stage.Reading? && 1 <= s.role.cursor <= |s.log| && s.log[s.role.cursor - 1].IsEvent()
          ==> s.role.cursor <= s.role.watermark)
  {
    ReachedInv(ap, p0, stream, steps);
    var s := Reached(ap, p0, stream, steps);
    if s.role.Live? && s.role.stage.Appended? {
      InFlightIsResidual(s.log, s.w, s.role.stage.batch, s.role.cursor, s.role.stage.last, s.orphans);
    }
  }

  /** Once a batch of a Command bears an Event, no other append ever carries that Command's cause. */
  lemma AtMostOneEventBatch(ap: Applier, p0: Projection, stream: int, steps: seq<Step>, i: nat, j: nat)
    requires IsRun(ap, Init(stream, p0), steps)
    requires var log := Reached(ap, p0, stream, steps).log;
      i < j < |log| && log[i].IsEvent() && log[j].cause == log[i].cause
    ensures SameRun(Reached(ap, p0, stream, steps).log, i, j)
  {
    ReachedInv(ap, p0, stream, steps);
  }

  /**
   * A follower, whatever its own crashes, holds the fold of exactly the Events up to the position it
   * committed; and one that has read through the leader's watermark holds the leader's projection,
   * unless it has already committed a batch the leader appended and has not committed yet.
   */
  lemma FollowerAgrees(ap: Applier, p0: Projection, stream: int, steps: seq<Step>)
    requires IsRun(ap, Init(stream, p0), steps)
    ensures var s := Reached(ap, p0, stream, steps);
      && s.replicaW <= |s.log| && s.replicaStore == FoldTo(ap, p0, s.log, s.replicaW)
      && (s.replica.Tailing? && s.w < s.replica.cursor && s.replicaW <= s.w ==> s.replicaStore == s.store)
      && (s.replica.Tailing? && s.replica.cursor == s.w + 1 ==> s.replicaW <= s.w && s.replica.txn.None?)
  {
    ReachedInv(ap, p0, stream, steps);
    var s := Reached(ap, p0, stream, steps);
    if s.replica.Tailing? && s.w < s.replica.cursor && s.replicaW < s.w {
      assert s.log[s.w - 1].IsNoop();
      assert QuietBetween(s.log, s.replicaW, s.w);
      FoldQuiet(ap, p0, s.log, s.replicaW, s.w);
    }
  }

  /** A Command about to be dispatched already has a batch in the log exactly when that batch was orphaned. */
  lemma RepeatsAreOrphans(ap: Applier, p0: Projection, stream: int, steps: seq<Step>)
    requires IsRun(ap, Init(stream, p0), steps)
    ensures var s := Reached(ap, p0, stream, steps);
      s.role.Live? && (s.role.stage.Reading? || s.role.stage.Dispatched?) ==>
        (CauseLogged(s.log, s.role.cursor) <==> s.role.cursor in s.orphans)
  {
    ReachedInv(ap, p0, stream, steps);
  }

  // ---------- Reports ----------

  /**
   * Reports: with no Command in hand, the Events reported are the Events this incarnation committed,
   * in log order, once each, preceded by recovery's leftover exactly when recovery folded something
   * and the first Command was refused; that leftover is the last Event recovery folded; and every Reject
   * produced has been reported once.
   */
  lemma ReportsExactly(ap: Applier, p0: Projection, stream: int, steps: seq<Step>)
    requires IsRun(ap, Init(stream, p0), steps)
    requires var r := Reached(ap, p0, stream, steps).role; r.Live? && r.stage.Reading?
    ensures var s := Reached(ap, p0, stream, steps);
      var t := s.role.trace;
      && s.w <= |s.log|
      && t.reported == Stale(t) + EventsIn(s.log, s.role.start, s.w)
      && Events(t.produced) == EventsIn(s.log, s.role.start, s.w)
      && t.refused == Rejects(t.produced)
      && s.role.boot <= s.role.start <= s.w && t.residue == LastOf(EventsIn(s.log, s.role.boot, s.role.start))
      && (t.reported == EventsIn(s.log, s.role.start, s.w) <==> s.role.start == s.role.boot || !t.firstRefused)
      && (exists idx :: ListsEvents(s.log, s.role.start, s.w, EventsIn(s.log, s.role.start, s.w), idx))
      && (exists idx :: ListsRejects(t.produced, |t.produced|, t.refused, idx))
  {
    ReachedInv(ap, p0, stream, steps);
    var s := Reached(ap, p0, stream, steps);
    var t := s.role.trace;
    assert t.reported + [] == t.reported && t.refused + [] == t.refused;
    var _ := EventsInExact(s.log, s.role.start, s.w);
    var _ := RejectsExact(t.produced, |t.produced|);
    assert EventsIn(s.log, s.role.start, s.w) + [] == EventsIn(s.log, s.role.start, s.w);
    assert [] + EventsIn(s.log, s.role.start, s.w) == EventsIn(s.log, s.role.start, s.w);
  }

  /** At every moment, an Event reported is recovery's leftover or lies at or below the watermark. */
  lemma NeverReportedEarly(ap: Applier, p0: Projection, stream: int, steps: seq<Step>)
    requires IsRun(ap, Init(stream, p0), steps)
    requires Reached(ap, p0, stream, steps).role.Live?
    ensures var s := Reached(ap, p0, stream, steps);
      s.w <= |s.log| && s.role.trace.reported <= Stale(s.role.trace) + EventsIn(s.log, s.role.start, s.w)
  {
    ReachedInv(ap, p0, stream, steps);
    var s := Reached(ap, p0, stream, steps);
    var t := s.role.trace;
    var committed := EventsIn(s.log, s.role.start, s.w);
    if s.role.stage.Reading? {
      ReportsExactly(ap, p0, stream, steps);
    } else if |t.dispatched| != 1 {
      ReportedSoFar(t.reported, Stale(t), committed, Events(s.role.stage.batch), Events(t.produced),
        s.role.stage.Committed?);
    }
  }

  /** With a batch in hand, what has been reported is what was committed before it. */
  lemma ReportedSoFar(reported: seq<Event>, stale: seq<Event>, committed: seq<Event>, batch: seq<Event>,
                      produced: seq<Event>, landed: bool)
    requires reported + batch == stale + produced
    requires produced == committed + (if landed then [] else batch)
    ensures reported <= stale + committed
  {
    var before := stale + committed;
    if landed {
      assert committed + [] == committed;
    } else {
      assert stale + produced == before + batch;
      assert reported == (reported + batch)[..|reported|] && before == (before + batch)[..|reported|];
    }
  }
}
