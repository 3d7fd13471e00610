/** The in-memory log, the simple dense form every other log is measured against, and the engine's append guard. */
module Logs {
  import opened Entries
  import opened Protocol

  /** The entry at 1-based position `id`, if the log reaches that far. */
  function At(entries: seq<Entry>, id: int): Option<Entry>
  {
    if 1 <= id <= |entries| then Some(entries[id - 1]) else None
  }

  class MemoryLog {
    const streamId: int
    var entries: seq<Entry>
    var nextId: int

    ghost predicate Valid()
      reads this
    {
      nextId == |entries| + 1
    }

    constructor (stream: int)
      ensures Valid() && entries == [] && streamId == stream
    {
      streamId, entries, nextId := stream, [], 1;
    }

    method Append(batch: seq<Entry>) returns (last: int)
      requires Valid()
      modifies this
      ensures Valid() && entries == old(entries) + Stamp(streamId, |old(entries)| + 1, batch)
      ensures last == |entries|
    {
      var id := nextId;
      var stamped: seq<Entry> := [];
      for i := 0 to |batch|
        invariant id == nextId + i
        invariant stamped == Stamp(streamId, nextId, batch)[..i]
      {
        stamped := stamped + [batch[i].(streamId := streamId, entryId := id)];
        id := id + 1;
      }
      nextId := id;
      entries := entries + stamped;
      last := id - 1;
    }

    method Read(id: int) returns (entry: Option<Entry>)
      ensures entry == At(entries, id)
    {
      var i := id - 1;
      if 0 <= i < |entries| { return Some(entries[i]); }
      return None;
    }
  }

  /** `NoopTerminatedLogStream::append` over a log: whatever the caller hands it, the append ends on a Noop. */
  method AppendTerminated(log: MemoryLog, batch: seq<Entry>, now: Timestamp) returns (last: int)
    requires log.Valid()
    modifies log
    ensures log.Valid() && log.entries == AppendTo(log.streamId, old(log.entries), batch, now)
    ensures last == |log.entries| && Boundary(log.entries, last)
  {
    var closed := batch;
    if |batch| == 0 || !batch[|batch| - 1].IsNoop() {
      closed := closed + [Entry(NIL_ID, NIL_ID, None, now, Noop)];
    }
    last := log.Append(closed);
  }
}
