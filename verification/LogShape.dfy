/** The shape of every log the engine writes, and how each kind of append keeps it. */
module LogShape {
  import opened Entries

  /** An entry with a cause was produced by an earlier Command; only Commands (and Noops) have none. */
  ghost predicate CauseOk(log: seq<Entry>, i: int)
    requires 0 <= i < |log|
  {
    match log[i].cause
    case Some(c) => 1 <= c <= i && log[c - 1].IsCommand()
    case None => log[i].IsNoop() || (log[i].IsCommand() && i + 1 < |log| && log[i + 1].IsNoop())
  }

  /** Entries of one append share one cause: a cause changes only across a Noop. */
  ghost predicate RunsShareCause(log: seq<Entry>)
  {
    forall i | 0 <= i < |log| - 1 :: log[i].IsNoop() || log[i + 1].cause == log[i].cause
  }

  /** Positions are dense from 1 and all carry the log's own stream id. */
  ghost predicate Dense(stream: int, log: seq<Entry>)
  {
    forall i | 0 <= i < |log| :: log[i].entryId == i + 1 && log[i].streamId == stream
  }

  ghost predicate Shape(stream: int, log: seq<Entry>)
  {
    && Dense(stream, log)
    && (log != [] ==> log[|log| - 1].IsNoop())
    && RunsShareCause(log)
    && (forall i | 0 <= i < |log| :: CauseOk(log, i))
  }

  /**
   * No entry follows, in another append, an Event with the same cause: an Event-bearing batch is its Command's
   * last.
   */
  ghost predicate EventBatchIsLast(log: seq<Entry>)
  {
    forall i, j | 0 <= i < j < |log| && log[i].IsEvent() && log[j].cause == log[i].cause :: SameRun(log, i, j)
  }

  /** The Events above `w` were all written by one append. */
  ghost predicate OneBatchAbove(log: seq<Entry>, w: int)
    requires 0 <= w
  {
    forall i, j | w <= i < j < |log| && log[i].IsEvent() && log[j].IsEvent() :: SameRun(log, i, j)
  }

  /** Every Command has at most one batch. */
  ghost predicate OneBatchPerCommand(log: seq<Entry>)
  {
    forall i, j | 0 <= i < j < |log| && log[i].cause.Some? && log[j].cause == log[i].cause :: SameRun(log, i, j)
  }

  lemma {:induction false} RunCause(log: seq<Entry>, i: int, j: int)
    requires RunsShareCause(log) && 0 <= i <= j < |log| && SameRun(log, i, j)
    ensures log[j].cause == log[i].cause
    decreases j - i
  {
    if i < j {
      RunCause(log, i, j - 1);
      assert log[j - 1].IsNoop() || log[j - 1 + 1].cause == log[j - 1].cause;
    }
  }

  /** One append's worth of entries: closed by its only Noop, all of one cause. */
  ghost predicate IsGroup(group: seq<Entry>, cause: Option<int>)
  {
    && group != []
    && (forall k | 0 <= k < |group| :: group[k].cause == cause)
    && (forall k | 0 <= k < |group| - 1 :: !group[k].IsNoop())
    && group[|group| - 1].IsNoop()
  }

  /** A group of a single client Command, or of the batch of a Command already in the log. */
  ghost predicate GroupFits(log: seq<Entry>, group: seq<Entry>, cause: Option<int>)
  {
    && IsGroup(group, cause)
    && match cause
       case Some(c) => 1 <= c <= |log| && log[c - 1].IsCommand()
       case None => |group| == 2 && group[0].IsCommand()
  }

  lemma AppendKeepsShape(stream: int, log: seq<Entry>, group: seq<Entry>, cause: Option<int>)
    requires Shape(stream, log) && GroupFits(log, group, cause)
    requires forall k | 0 <= k < |group| :: group[k].entryId == |log| + 1 + k && group[k].streamId == stream
    ensures Shape(stream, log + group)
  {
    var log' := log + group;
    forall i | 0 <= i < |log'| ensures CauseOk(log', i) {
      if i < |log| { assert CauseOk(log, i); }
    }
    forall i | 0 <= i < |log'| - 1 ensures log'[i].IsNoop() || log'[i + 1].cause == log'[i].cause {
      if i < |log| - 1 { assert log[i].IsNoop() || log[i + 1].cause == log[i].cause; }
    }
  }

  /** Appending a group keeps "an Event-bearing batch is the last" when no logged Event has its cause. */
  lemma AppendKeepsEventLast(log: seq<Entry>, group: seq<Entry>, cause: Option<int>)
    requires IsGroup(group, cause) && EventBatchIsLast(log)
    requires forall i | 0 <= i < |log| && log[i].IsEvent() :: log[i].cause != cause
    ensures EventBatchIsLast(log + group)
  {
    var log' := log + group;
    forall i, j | 0 <= i < j < |log'| && log'[i].IsEvent() && log'[j].cause == log'[i].cause
      ensures SameRun(log', i, j)
    {
      if j < |log| { assert SameRun(log, i, j); }
    }
  }

  /** Appending a group keeps "one batch per Command" exactly when its cause is not in the log yet. */
  lemma AppendKeepsOneBatch(stream: int, log: seq<Entry>, group: seq<Entry>, c: int)
    requires Shape(stream, log) && IsGroup(group, Some(c)) && OneBatchPerCommand(log)
    ensures OneBatchPerCommand(log + group) <==> (forall i | 0 <= i < |log| :: log[i].cause != Some(c))
  {
    var log' := log + group;
    if i :| 0 <= i < |log| && log[i].cause == Some(c) {
      assert log'[|log|].cause == log'[i].cause && log'[|log| - 1].IsNoop();
      assert !SameRun(log', i, |log|);
    } else {
      forall i, j | 0 <= i < j < |log'| && log'[i].cause.Some? && log'[j].cause == log'[i].cause
        ensures SameRun(log', i, j)
      {
        if j < |log| { assert SameRun(log, i, j); }
      }
    }
  }

  lemma ClientKeepsOneBatch(log: seq<Entry>, group: seq<Entry>)
    requires IsGroup(group, None) && OneBatchPerCommand(log)
    ensures OneBatchPerCommand(log + group)
  {
    var log' := log + group;
    forall i, j | 0 <= i < j < |log'| && log'[i].cause.Some? && log'[j].cause == log'[i].cause
      ensures SameRun(log', i, j)
    {
      assert SameRun(log, i, j);
    }
  }
}
