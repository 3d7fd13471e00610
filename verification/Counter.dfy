/** The generated-name counter: what minting and folding a create event do to it. */
module Counter {
  import opened Entries

  /** The generated suffix of the name an event creates, if it creates one. */
  function CreatedSuffix(event: Event): Option<U64>
  {
    if event.ChildCreated? then event.suffix else None
  }

  /** `suffix as i64 + 1`: the cast wraps into the negatives, and so does the sum at the top. */
  function RaiseTo(suffix: U64): int
  {
    if suffix < I64_MAX then suffix + 1
    else if suffix == I64_MAX then -I64_MAX - 1
    else suffix - TWO_TO_64 + 1
  }

  function Max(a: int, b: int): int { if a < b then b else a }

  /** `bump_generated_seq`, as the create appliers call it. */
  function Raise(seqNo: nat, event: Event): nat
  {
    match CreatedSuffix(event)
    case None => seqNo
    case Some(suffix) => Max(seqNo, RaiseTo(suffix))
  }

  /** The counter after the events at positions from+1..=upTo. */
  function RaisedIn(seqNo: nat, log: seq<Entry>, from: nat, upTo: nat): nat
    requires upTo <= |log|
  {
    if upTo <= from then seqNo
    else if log[upTo - 1].IsEvent() then Raise(RaisedIn(seqNo, log, from, upTo - 1), log[upTo - 1].payload.event)
    else RaisedIn(seqNo, log, from, upTo - 1)
  }

  /** Entry `e` creates a name with this suffix, and the suffix is one the counter can pass. */
  predicate Creates(e: Entry, suffix: int)
  {
    e.IsEvent() && e.payload.event.ChildCreated? && e.payload.event.suffix == Some(suffix) && suffix < I64_MAX
  }

  /** The counter has passed every suffix created by the first `n` entries. */
  ghost predicate Covers(seqNo: int, log: seq<Entry>, n: int)
    requires n <= |log|
  {
    forall p, suffix: U64 | 0 <= p < n && Creates(log[p], suffix) :: suffix < seqNo
  }

  lemma {:induction false} RaisedQuiet(seqNo: nat, log: seq<Entry>, from: nat, a: nat, b: nat)
    requires from <= a <= b <= |log| && QuietBetween(log, a, b)
    ensures RaisedIn(seqNo, log, from, b) == RaisedIn(seqNo, log, from, a)
    decreases b
  {
    if a < b { RaisedQuiet(seqNo, log, from, a, b - 1); }
  }

  lemma {:induction false} RaisedPrefix(seqNo: nat, log: seq<Entry>, longer: seq<Entry>, from: nat, upTo: nat)
    requires upTo <= |log| && log <= longer
    ensures RaisedIn(seqNo, longer, from, upTo) == RaisedIn(seqNo, log, from, upTo)
    decreases upTo
  {
    if from < upTo { RaisedPrefix(seqNo, log, longer, from, upTo - 1); }
  }

  /** Folding events never lowers the counter, and carries a covering counter over what it folds. */
  lemma {:induction false} RaisedCovers(seqNo: nat, log: seq<Entry>, from: nat, upTo: nat)
    requires from <= upTo <= |log|
    ensures RaisedIn(seqNo, log, from, upTo) >= seqNo
    ensures Covers(seqNo, log, from) ==> Covers(RaisedIn(seqNo, log, from, upTo), log, upTo)
    decreases upTo
  {
    if from < upTo {
      RaisedCovers(seqNo, log, from, upTo - 1);
    }
  }

  lemma {:induction false} RaisedRises(seqNo: nat, log: seq<Entry>, from: nat, a: nat, b: nat)
    requires a <= b <= |log|
    ensures RaisedIn(seqNo, log, from, a) <= RaisedIn(seqNo, log, from, b)
    decreases b
  {
    if a < b { RaisedRises(seqNo, log, from, a, b - 1); }
  }

  // ---------- Reading back ----------

  /** The committed counter, and the one in the transaction held for the batch being read back. */
  datatype SeqCell = SeqCell(seqNo: nat, held: Option<nat>)

  /** One entry of a read-back: an Event raises the held counter, a Noop commits it if it is higher. */
  function AbsorbSeq(c: SeqCell, entry: Entry): SeqCell
  {
    match entry.payload
    case EventPayload(event) => c.(held := Some(Raise(if c.held.Some? then c.held.value else c.seqNo, event)))
    case Noop => if c.held.Some? then SeqCell(Max(c.seqNo, c.held.value), None) else c
    case _ => c
  }

  function AbsorbSeqAll(c: SeqCell, log: seq<Entry>, from: nat, upTo: nat): SeqCell
    requires upTo <= |log|
  {
    if upTo <= from then c else AbsorbSeq(AbsorbSeqAll(c, log, from, upTo - 1), log[upTo - 1])
  }
}
