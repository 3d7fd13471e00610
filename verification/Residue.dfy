/** What every state of the protocol satisfies, stated over the log, and how each log-level move keeps it. */
module Residue {
  import opened Entries
  import opened LogShape

  ghost predicate OrphansLogged(log: seq<Entry>, orphans: set<int>)
  {
    forall c | c in orphans :: CauseLogged(log, c)
  }

  ghost predicate CauseLogged(log: seq<Entry>, c: int)
  {
    exists i :: 0 <= i < |log| && log[i].cause == Some(c)
  }

  /** Every cause at index `lo` or above is below `b` or orphaned. */
  ghost predicate CausesKnown(log: seq<Entry>, lo: int, b: int, orphans: set<int>)
    requires 0 <= lo
  {
    forall i | lo <= i < |log| && log[i].cause.Some? :: log[i].cause.value < b || log[i].cause.value in orphans
  }

  /** Every Event's cause is below `b`. */
  ghost predicate EventCausesBelow(log: seq<Entry>, b: int)
  {
    forall i | 0 <= i < |log| && log[i].IsEvent() :: log[i].cause.Some? && log[i].cause.value < b
  }

  ghost predicate EventWithCause(log: seq<Entry>, w: int, cause: Option<int>)
    requires 0 <= w
  {
    exists e :: w <= e < |log| && log[e].IsEvent() && log[e].cause == cause
  }

  /** With no leader running: the Events above `w` are one batch's, and any other batch above `w` is orphaned. */
  ghost predicate Residual(log: seq<Entry>, w: int, orphans: set<int>)
    requires 0 <= w
  {
    && OneBatchAbove(log, w)
    && forall i | w <= i < |log| && log[i].cause.Some? ::
         log[i].cause.value in orphans || EventWithCause(log, w, log[i].cause)
  }

  /** An Event above `w` and before `pos` whose append is still open at `pos`. */
  ghost predicate OpenBatch(log: seq<Entry>, w: int, pos: int)
    requires 0 <= w && 0 <= pos <= |log|
  {
    exists e :: w <= e < pos && log[e].IsEvent() && SameRun(log, e, pos)
  }

  /** With a leader reading at `c` and no batch in flight: no Event above `w`, and only orphans ahead of the cursor. */
  ghost predicate Settled(log: seq<Entry>, w: int, c: int, orphans: set<int>)
    requires 0 <= w
  {
    && QuietBetween(log, w, |log|)
    && EventCausesBelow(log, c)
    && CausesKnown(log, 0, c, orphans)
    && CausesKnown(log, w, 0, orphans)
  }

  /** `batch`, the batch of the Command at `c`, is what the append ending at `last` wrote; nothing caused follows it. */
  ghost predicate Placed(log: seq<Entry>, batch: seq<Entry>, c: int, last: int)
  {
    && 0 < last <= |log| && 0 <= last - 1 - |batch|
    && ContentAt(log, last - 1 - |batch|, batch)
    && (forall i | last - 1 - |batch| <= i < last :: log[i].cause == Some(c))
    && log[last - 1].IsNoop()
    && (forall i | last <= i < |log| :: log[i].cause == None)
  }

  /** With a batch appended and its commit outstanding. */
  ghost predicate InFlight(log: seq<Entry>, w: int, batch: seq<Entry>, c: int, last: int, orphans: set<int>)
    requires 0 <= w
  {
    && batch != [] && (forall k | 0 <= k < |batch| :: !batch[k].IsNoop())
    && Placed(log, batch, c, last)
    && w <= last - 1 - |batch|
    && QuietBetween(log, w, last - 1 - |batch|)
    && EventCausesBelow(log, c + 1)
    && CausesKnown(log, 0, c + 1, orphans)
    && CausesKnown(log, w, 0, orphans + {c})
  }

  // ---------- A client appends ----------

  /** A client's append: event-free and without a cause. */
  ghost predicate ClientGroup(group: seq<Entry>)
  {
    forall k | 0 <= k < |group| :: group[k].cause == None && !group[k].IsEvent()
  }

  lemma GrowOrphans(log: seq<Entry>, group: seq<Entry>, orphans: set<int>)
    requires OrphansLogged(log, orphans)
    ensures OrphansLogged(log + group, orphans)
  {
    forall c | c in orphans ensures CauseLogged(log + group, c) {
      assert CauseLogged(log, c);
      var i :| 0 <= i < |log| && log[i].cause == Some(c);
      assert (log + group)[i].cause == Some(c);
    }
  }

  lemma GrowResidual(log: seq<Entry>, group: seq<Entry>, w: nat, orphans: set<int>)
    requires ClientGroup(group) && w <= |log| && Residual(log, w, orphans)
    ensures Residual(log + group, w, orphans)
  {
    var log' := log + group;
    forall i, j | w <= i < j < |log'| && log'[i].IsEvent() && log'[j].IsEvent() ensures SameRun(log', i, j) {
      assert SameRun(log, i, j);
    }
    forall i | w <= i < |log'| && log'[i].cause.Some?
      ensures log'[i].cause.value in orphans || EventWithCause(log', w, log'[i].cause)
    {
      if log[i].cause.value !in orphans {
        var e :| w <= e < |log| && log[e].IsEvent() && log[e].cause == log[i].cause;
        assert log'[e].IsEvent() && log'[e].cause == log'[i].cause;
      }
    }
  }

  lemma GrowOpen(log: seq<Entry>, group: seq<Entry>, w: nat, pos: nat)
    requires pos <= |log| && OpenBatch(log, w, pos)
    ensures OpenBatch(log + group, w, pos)
  {
    var e :| w <= e < pos && log[e].IsEvent() && SameRun(log, e, pos);
    assert (log + group)[e].IsEvent() && SameRun(log + group, e, pos);
  }

  lemma GrowSettled(log: seq<Entry>, group: seq<Entry>, w: nat, c: int, orphans: set<int>)
    requires ClientGroup(group) && Settled(log, w, c, orphans)
    ensures Settled(log + group, w, c, orphans)
  {
  }

  lemma GrowInFlight(log: seq<Entry>, group: seq<Entry>, w: nat, batch: seq<Entry>, c: int, last: int,
                     orphans: set<int>)
    requires ClientGroup(group) && InFlight(log, w, batch, c, last, orphans)
    ensures InFlight(log + group, w, batch, c, last, orphans)
  {
  }

  // ---------- Recovery ----------

  /** The Noop closing an Event-bearing batch leaves no Event, and only orphaned batches, above it. */
  lemma CloseResidue(log: seq<Entry>, w: nat, pos: nat, orphans: set<int>)
    requires w < pos <= |log| && Residual(log, w, orphans) && EventBatchIsLast(log)
    requires OpenBatch(log, w, pos - 1) && log[pos - 1].IsNoop()
    ensures QuietBetween(log, pos, |log|) && Residual(log, pos, orphans)
  {
    var e :| w <= e < pos - 1 && log[e].IsEvent() && SameRun(log, e, pos - 1);
    forall j | pos <= j < |log| ensures !log[j].IsEvent() {
      assert log[j].IsEvent() ==> SameRun(log, e, j);
    }
    forall i | pos <= i < |log| && log[i].cause.Some? ensures log[i].cause.value in orphans {
      forall x | w <= x < pos && log[x].IsEvent() ensures log[x].cause != log[i].cause {
        assert !SameRun(log, x, i);
      }
      assert !EventWithCause(log, w, log[i].cause);
    }
  }

  lemma OpenExtends(log: seq<Entry>, w: nat, pos: nat)
    requires pos < |log| && !log[pos].IsNoop() && w <= pos
    requires OpenBatch(log, w, pos) || log[pos].IsEvent()
    ensures OpenBatch(log, w, pos + 1)
  {
    if log[pos].IsEvent() {
      assert SameRun(log, pos, pos + 1);
    } else {
      var e :| w <= e < pos && log[e].IsEvent() && SameRun(log, e, pos);
      assert SameRun(log, e, pos + 1);
    }
  }

  /** Once nothing above `w` is an Event, a leader may start reading at `w + 1`. */
  lemma RecoveredIsSettled(stream: int, log: seq<Entry>, w: nat, orphans: set<int>)
    requires Shape(stream, log) && w <= |log| && Residual(log, w, orphans) && QuietBetween(log, w, |log|)
    ensures Settled(log, w, w + 1, orphans)
  {
    forall i | 0 <= i < |log| && log[i].cause.Some?
      ensures log[i].cause.value < w + 1 || log[i].cause.value in orphans
      ensures i >= w ==> log[i].cause.value in orphans
    {
      assert CauseOk(log, i);
    }
    forall i | 0 <= i < |log| && log[i].IsEvent() ensures log[i].cause.Some? && log[i].cause.value < w + 1 {
      assert CauseOk(log, i);
    }
  }

  // ---------- The leader appends, commits, dies ----------

  lemma AppendIsInFlight(log: seq<Entry>, group: seq<Entry>, w: nat, batch: seq<Entry>, c: int, orphans: set<int>)
    requires Settled(log, w, c, orphans) && w <= |log|
    requires batch != [] && |group| == |batch| + 1 && IsGroup(group, Some(c))
    requires ContentAt(group, 0, batch)
    ensures InFlight(log + group, w, batch, c, |log + group|, orphans)
  {
    var log' := log + group;
    forall k | 0 <= k < |batch|
      ensures !batch[k].IsNoop() && batch[k].payload == log'[|log| + k].payload &&
        batch[k].timestamp == log'[|log| + k].timestamp
    {
      assert log'[|log| + k] == group[0 + k] && !group[k].IsNoop();
    }
    forall i | |log| <= i < |log'| ensures log'[i].cause == Some(c) {
      assert log'[i] == group[i - |log|];
    }
  }

  lemma CommitSettles(stream: int, log: seq<Entry>, w: nat, batch: seq<Entry>, c: int, last: int, orphans: set<int>)
    requires Shape(stream, log) && InFlight(log, w, batch, c, last, orphans)
    ensures Settled(log, last, c + 1, orphans)
  {
    forall i | last <= i < |log| ensures !log[i].IsEvent() { assert CauseOk(log, i); }
  }

  /** Committing the batch in flight lands exactly the Events between the two watermarks. */
  lemma CommitFolds(ap: Applier, p: Projection, log: seq<Entry>, w: nat, batch: seq<Entry>, c: int, last: int)
    requires Placed(log, batch, c, last) && w <= last - 1 - |batch| && QuietBetween(log, w, last - 1 - |batch|)
    ensures FoldTo(ap, p, log, last) == Fold(ap, FoldTo(ap, p, log, w), batch)
    ensures EventsTo(log, last) == EventsTo(log, w) + Events(batch)
  {
    var first := last - 1 - |batch|;
    FoldQuiet(ap, p, log, w, first);
    FoldPart(ap, p, log, first, batch, |batch|);
  }

  lemma SettledIsResidual(log: seq<Entry>, w: nat, c: int, orphans: set<int>)
    requires Settled(log, w, c, orphans) && (forall i | 0 <= i < |log| :: CauseOk(log, i))
    ensures Residual(log, w, orphans)
  {
    forall i | w <= i < |log| && log[i].cause.Some? ensures log[i].cause.value in orphans { assert CauseOk(log, i); }
  }

  /** Every Event above `w` belongs to the batch in flight, which holds no Noop. */
  lemma InFlightEvents(log: seq<Entry>, w: nat, batch: seq<Entry>, c: int, last: int, orphans: set<int>)
    requires (forall i | 0 <= i < |log| :: CauseOk(log, i)) && InFlight(log, w, batch, c, last, orphans)
    ensures forall i | w <= i < |log| && log[i].IsEvent() :: last - 1 - |batch| <= i < last - 1
    ensures forall k | last - 1 - |batch| <= k < last - 1 :: !log[k].IsNoop()
    ensures !Quiet(batch) ==> EventWithCause(log, w, Some(c))
  {
    var first := last - 1 - |batch|;
    forall i | w <= i < |log| && log[i].IsEvent() ensures first <= i < last - 1 { assert CauseOk(log, i); }
    forall k | first <= k < last - 1 ensures !log[k].IsNoop() { assert !batch[k - first].IsNoop(); }
    if !Quiet(batch) {
      var k :| 0 <= k < |batch| && batch[k].IsEvent();
      assert log[first + k].IsEvent();
    }
  }

  lemma InFlightIsResidual(log: seq<Entry>, w: nat, batch: seq<Entry>, c: int, last: int, orphans: set<int>)
    requires (forall i | 0 <= i < |log| :: CauseOk(log, i)) && InFlight(log, w, batch, c, last, orphans)
    ensures Residual(log, w, if Quiet(batch) then orphans + {c} else orphans)
    ensures CauseLogged(log, c)
  {
    assert log[last - 1].cause == Some(c);
    InFlightEvents(log, w, batch, c, last, orphans);
    forall i | w <= i < |log| && log[i].cause.Some? ensures log[i].cause.value in orphans + {c} {
      assert CauseOk(log, i);
    }
  }
}
