/** Folding a log back batch by batch: what the recovery pass and the follower both compute, on any log. */
module Readback {
  import opened Entries
  import opened Protocol
  import opened Residue
  import opened Counter

  /** The cell after reading back positions from+1..=to. */
  function AbsorbAll(ap: Applier, c: Cell, log: seq<Entry>, from: nat, to: nat): Cell
    requires to <= |log|
  {
    if to <= from then c else Absorb(ap, AbsorbAll(ap, c, log, from, to - 1), log[to - 1], to)
  }

  /** Position `p` is a Noop closing an append that bears an Event above `w`. */
  ghost predicate Closes(log: seq<Entry>, w: nat, p: nat)
  {
    w < p <= |log| && log[p - 1].IsNoop() && OpenBatch(log, w, p - 1)
  }

  /** The watermark a read-back of positions w+1..=n arrives at: the last Noop closing an Event, or `w`. */
  ghost predicate IsResume(log: seq<Entry>, w: nat, n: nat, r: nat)
  {
    && (r == w || (r <= n && Closes(log, w, r)))
    && forall p | r < p <= n :: !Closes(log, w, p)
  }

  lemma {:induction false} AbsorbAllCompose(ap: Applier, c: Cell, log: seq<Entry>, a: nat, b: nat, n: nat)
    requires a <= b <= n <= |log|
    ensures AbsorbAll(ap, c, log, a, n) == AbsorbAll(ap, AbsorbAll(ap, c, log, a, b), log, b, n)
    decreases n
  {
    if b < n { AbsorbAllCompose(ap, c, log, a, b, n - 1); }
  }

  /** The read-back invariant, relative to the position the pass started from. */
  ghost predicate PassInv(ap: Applier, p: Projection, log: seq<Entry>, w: nat, c: Cell, n: nat)
    requires w <= n <= |log|
  {
    && w <= c.w <= n
    && IsResume(log, w, n, c.w)
    && (c.txn.Some? <==> OpenBatch(log, w, n))
    && (c.txn.None? ==> QuietBetween(log, c.w, n))
    && (c.txn.Some? ==> c.txn.value == FoldTo(ap, p, log, n))
    && c.store == FoldTo(ap, p, log, c.w)
  }

  lemma PassStep(ap: Applier, p: Projection, log: seq<Entry>, w: nat, c: Cell, n: nat)
    requires w <= n < |log| && PassInv(ap, p, log, w, c, n)
    ensures PassInv(ap, p, log, w, Absorb(ap, c, log[n], n + 1), n + 1)
  {
    if c.txn.None? { FoldQuiet(ap, p, log, c.w, n); }
    if !log[n].IsNoop() && (c.txn.Some? || log[n].IsEvent()) { OpenExtends(log, w, n); }
    if log[n].IsNoop() { NotOpenAfterNoop(log, w, n); }
    else if c.txn.None? && !log[n].IsEvent() { StaysClosed(log, w, n); }
    assert Closes(log, w, n + 1) <==> log[n].IsNoop() && c.txn.Some?;
  }

  lemma NotOpenAfterNoop(log: seq<Entry>, w: nat, n: nat)
    requires w <= n < |log| && log[n].IsNoop()
    ensures !OpenBatch(log, w, n + 1)
  {
    forall e | w <= e < n + 1 && log[e].IsEvent() ensures !SameRun(log, e, n + 1) {
      assert e <= n;
    }
  }

  lemma StaysClosed(log: seq<Entry>, w: nat, n: nat)
    requires w <= n < |log| && !log[n].IsEvent() && !OpenBatch(log, w, n)
    ensures !OpenBatch(log, w, n + 1)
  {
    forall e | w <= e < n + 1 && log[e].IsEvent() ensures !SameRun(log, e, n + 1) {
      assert !SameRun(log, e, n);
    }
  }

  /**
   * A read-back commits at exactly the last Noop that closes an Event, and commits there the fold of
   * exactly the Events up to it. Any log, well formed or not.
   */
  lemma {:induction false} ReadbackExact(ap: Applier, p: Projection, log: seq<Entry>, w: nat, n: nat)
    requires w <= n <= |log|
    ensures PassInv(ap, p, log, w, AbsorbAll(ap, Cell(FoldTo(ap, p, log, w), w, None), log, w, n), n)
    decreases n
  {
    var c := Cell(FoldTo(ap, p, log, w), w, None);
    if w < n {
      ReadbackExact(ap, p, log, w, n - 1);
      PassStep(ap, p, log, w, AbsorbAll(ap, c, log, w, n - 1), n - 1);
    }
  }

  /** Which positions a read-back commits at depends on the log alone, not on the projection it folds into. */
  lemma {:induction false} SamePositions(ap: Applier, p: Projection, q: Projection, log: seq<Entry>, w: nat, n: nat)
    requires n <= |log|
    ensures var c, d := AbsorbAll(ap, Cell(p, w, None), log, w, n), AbsorbAll(ap, Cell(q, w, None), log, w, n);
      c.w == d.w && c.txn.Some? == d.txn.Some?
    decreases n
  {
    if w < n { SamePositions(ap, p, q, log, w, n - 1); }
  }

  /** A read-back from any projection arrives at exactly the last Noop closing an Event. */
  lemma ResumesExactly(ap: Applier, p: Projection, log: seq<Entry>, w: nat, n: nat)
    requires w <= n <= |log|
    ensures IsResume(log, w, n, AbsorbAll(ap, Cell(p, w, None), log, w, n).w)
  {
    ReadbackExact(ap, p, log, w, n);
    SamePositions(ap, p, FoldTo(ap, p, log, w), log, w, n);
  }

  /** Throwing the held transaction away and re-reading from the committed watermark loses nothing. */
  lemma {:induction false} RereadRestores(ap: Applier, c: Cell, log: seq<Entry>, w: nat, m: nat)
    requires w <= m <= |log| && c.w == w && c.txn.None?
    ensures var stopped := AbsorbAll(ap, c, log, w, m);
      w <= stopped.w <= m && AbsorbAll(ap, stopped.(txn := None), log, stopped.w, m) == stopped
    decreases m
  {
    if w < m { RereadRestores(ap, c, log, w, m - 1); }
  }

  /**
   * Interrupting a read-back anywhere, dropping what it held and running it again from the watermark
   * it committed arrives where an uninterrupted pass does; run on its own result it changes nothing.
   */
  lemma InterruptedReadback(ap: Applier, c: Cell, log: seq<Entry>, w: nat, m: nat, n: nat)
    requires w <= m <= n <= |log| && c.w == w && c.txn.None?
    ensures var stopped := AbsorbAll(ap, c, log, w, m);
      && stopped.w <= n
      && AbsorbAll(ap, stopped.(txn := None), log, stopped.w, n) == AbsorbAll(ap, c, log, w, n)
  {
    var stopped := AbsorbAll(ap, c, log, w, m);
    RereadRestores(ap, c, log, w, m);
    AbsorbAllCompose(ap, stopped.(txn := None), log, stopped.w, m, n);
    AbsorbAllCompose(ap, c, log, w, m, n);
  }

  /** A read-back looks only at the entries it reads. */
  lemma {:induction false} AbsorbPrefix(ap: Applier, c: Cell, log: seq<Entry>, longer: seq<Entry>, w: nat, n: nat)
    requires n <= |log| && log <= longer
    ensures AbsorbAll(ap, c, longer, w, n) == AbsorbAll(ap, c, log, w, n)
    decreases n
  {
    if w < n { AbsorbPrefix(ap, c, log, longer, w, n - 1); }
  }

  // ---------- The counter ----------

  /** The counter of a read-back is, committed and held, the one its Events so far raise. */
  ghost predicate SeqPassInv(q: nat, log: seq<Entry>, w: nat, c: Cell, d: SeqCell, n: nat)
    requires w <= n <= |log|
  {
    && w <= c.w <= n
    && c.txn.Some? == d.held.Some?
    && d.seqNo == RaisedIn(q, log, w, c.w)
    && (d.held.None? ==> QuietBetween(log, c.w, n))
    && (d.held.Some? ==> d.held.value == RaisedIn(q, log, w, n))
  }

  lemma SeqPassStep(ap: Applier, q: nat, log: seq<Entry>, w: nat, c: Cell, d: SeqCell, n: nat)
    requires w <= n < |log| && SeqPassInv(q, log, w, c, d, n)
    ensures SeqPassInv(q, log, w, Absorb(ap, c, log[n], n + 1), AbsorbSeq(d, log[n]), n + 1)
  {
    if d.held.None? { RaisedQuiet(q, log, w, c.w, n); }
    RaisedRises(q, log, w, c.w, n);
  }

  /** A read-back leaves the counter raised by exactly the Events it committed. */
  lemma {:induction false} SeqReadbackExact(ap: Applier, p: Projection, q: nat, log: seq<Entry>, w: nat, n: nat)
    requires w <= n <= |log|
    ensures SeqPassInv(q, log, w, AbsorbAll(ap, Cell(p, w, None), log, w, n), AbsorbSeqAll(SeqCell(q, None), log, w, n),
      n)
    decreases n
  {
    if w < n {
      SeqReadbackExact(ap, p, q, log, w, n - 1);
      SeqPassStep(ap, q, log, w, AbsorbAll(ap, Cell(p, w, None), log, w, n - 1),
                  AbsorbSeqAll(SeqCell(q, None), log, w, n - 1), n - 1);
    }
  }

  lemma {:induction false} AbsorbSeqPrefix(c: SeqCell, log: seq<Entry>, longer: seq<Entry>, w: nat, n: nat)
    requires n <= |log| && log <= longer
    ensures AbsorbSeqAll(c, longer, w, n) == AbsorbSeqAll(c, log, w, n)
    decreases n
  {
    if w < n { AbsorbSeqPrefix(c, log, longer, w, n - 1); }
  }
}
