/** Where a run can go from here: recovery completes, a Command comes up, and which suffixes can still be minted. */
module Continuations {
  import opened Entries
  import opened Protocol
  import opened Residue
  import opened Safety
  import opened Incarnation
  import opened Readback
  import opened Restart
  import opened Counter
  import opened Dispatching
  import opened Minting

  ghost function At(ap: Applier, p0: Projection, stream: int, moves: seq<Move>): Counted
    requires IsPath(ap, Start(stream, p0), moves)
  {
    Arrived(ap, Start(stream, p0), moves)
  }

  lemma {:induction false} Go(ap: Applier, p0: Projection, stream: int, moves: seq<Move>, step: Step, acts: seq<Act>)
    returns (longer: seq<Move>)
    requires IsPath(ap, Start(stream, p0), moves) && CanMove(At(ap, p0, stream, moves), Move(step, acts))
    ensures IsPath(ap, Start(stream, p0), longer) && moves <= longer
    ensures At(ap, p0, stream, longer) == Moved(ap, At(ap, p0, stream, moves), Move(step, acts))
  {
    longer := moves + [Move(step, acts)];
    PathSnoc(ap, Start(stream, p0), moves, Move(step, acts));
  }

  // ---------- A suffix still ahead ----------

  /** `x` is no lower than the committed counter and above every suffix an Event in the log created. */
  ghost predicate Ahead(c: Counted, x: nat)
  {
    c.leader.seqNo <= x && Covers(x, c.s.log, |c.s.log|)
  }

  /** And no lower than the counter of the transaction a recovery holds. */
  ghost predicate AheadOfHeld(c: Counted, x: nat)
  {
    Ahead(c, x) && (c.leader.held.Some? ==> c.leader.held.value <= x)
  }

  lemma RaiseStaysBelow(seqNo: nat, event: Event, x: nat)
    requires seqNo <= x && (CreatedSuffix(event).Some? && CreatedSuffix(event).value < I64_MAX ==>
      CreatedSuffix(event).value < x)
    ensures Raise(seqNo, event) <= x
  {
  }

  lemma ReadStaysAhead(ap: Applier, c: Counted, x: nat)
    requires CanMove(c, Move(RecoverRead, [])) && AheadOfHeld(c, x)
    ensures AheadOfHeld(Moved(ap, c, Move(RecoverRead, [])), x)
  {
    var e := c.s.log[c.s.role.pos - 1];
    if e.IsEvent() {
      if CreatedSuffix(e.payload.event).Some? && CreatedSuffix(e.payload.event).value < I64_MAX {
        assert Creates(e, CreatedSuffix(e.payload.event).value);
      }
      RaiseStaysBelow(if c.leader.held.Some? then c.leader.held.value else c.leader.seqNo, e.payload.event, x);
    }
  }

  // ---------- A restart that nobody disturbs ----------

  /** Between two moments of one recovery: the log, the boot watermark and the crash record are untouched. */
  ghost predicate SamePass(c: Counted, d: Counted)
  {
    && c.s.role.Recovering? && d.s.role.Recovering? && d.s.role.boot == c.s.role.boot
    && d.s.stream == c.s.stream && d.s.log == c.s.log && d.s.orphans == c.s.orphans
    && d.minted == c.minted && d.lost == c.lost
  }

  ghost predicate NothingAhead(c: Counted)
  {
    && c.s.role.Recovering? && 1 <= c.s.role.pos <= |c.s.log| + 1 && c.s.role.txn.None? && c.leader.held.None?
    && QuietBetween(c.s.log, c.s.role.pos - 1, |c.s.log|)
  }

  lemma {:induction false} FinishRecovery(ap: Applier, p0: Projection, stream: int, moves: seq<Move>, x: nat)
    returns (more: seq<Move>)
    requires IsPath(ap, Start(stream, p0), moves) && At(ap, p0, stream, moves).s.role.Recovering?
    ensures IsPath(ap, Start(stream, p0), more) && moves <= more
    ensures var c, d := At(ap, p0, stream, moves), At(ap, p0, stream, more);
      && SamePass(c, d) && d.s.role.pos > |d.s.log|
      && (NothingAhead(c) ==> d.leader == c.leader && d.s.w == c.s.w)
      && (AheadOfHeld(c, x) ==> AheadOfHeld(d, x))
    decreases |At(ap, p0, stream, moves).s.log| + 1 - At(ap, p0, stream, moves).s.role.pos
  {
    var c := At(ap, p0, stream, moves);
    if c.s.role.pos > |c.s.log| {
      more := moves;
    } else {
      PathKeepsCounted(ap, p0, Start(stream, p0), moves);
      var on := Go(ap, p0, stream, moves, RecoverRead, []);
      if AheadOfHeld(c, x) { ReadStaysAhead(ap, c, x); }
      more := FinishRecovery(ap, p0, stream, on, x);
    }
  }

  /** The state once recovery from `c` is done and the leader is about to read. */
  ghost predicate Rebooted(c: Counted, d: Counted)
  {
    && d.s.stream == c.s.stream && d.s.log == c.s.log && d.s.orphans == c.s.orphans && d.lost == c.lost
    && d.s.role.Live? && d.s.role.stage.Reading? && d.s.role.trace.dispatched == []
    && d.s.role.boot == c.s.w && d.s.role.start == d.s.w && d.s.role.cursor == d.s.w + 1
    && IsResume(d.s.log, c.s.w, |d.s.log|, d.s.w)
  }

  /** From any reachable crash, recovery completes, and resumes exactly where it should. */
  lemma {:induction false} Reboot(ap: Applier, p0: Projection, stream: int, moves: seq<Move>, x: nat)
    returns (more: seq<Move>)
    requires IsPath(ap, Start(stream, p0), moves) && At(ap, p0, stream, moves).s.role.Down?
    ensures IsPath(ap, Start(stream, p0), more) && moves <= more
    ensures var c, d := At(ap, p0, stream, moves), At(ap, p0, stream, more);
      && Rebooted(c, d)
      && (c.s.w <= |c.s.log| && QuietBetween(c.s.log, c.s.w, |c.s.log|) ==> d.leader == c.leader && d.s.w == c.s.w)
      && (Ahead(c, x) ==> Ahead(d, x))
  {
    PathKeepsCounted(ap, p0, Start(stream, p0), moves);
    var booted := Go(ap, p0, stream, moves, Boot, []);
    var read := FinishRecovery(ap, p0, stream, booted, x);
    PathIsRun(ap, Start(stream, p0), read);
    RecoveryResumesAt(ap, p0, stream, Plain(read));
    more := Go(ap, p0, stream, read, RecoverDone, []);
  }

  /** A live leader reads on, past what is no Command, until one is under its cursor. */
  lemma {:induction false} SkipToCommand(ap: Applier, p0: Projection, stream: int, moves: seq<Move>, p: nat)
    returns (more: seq<Move>)
    requires IsPath(ap, Start(stream, p0), moves)
    requires var s := At(ap, p0, stream, moves).s;
      s.role.Live? && s.role.stage.Reading? && 1 <= s.role.cursor <= p <= |s.log| && s.log[p - 1].IsCommand()
    ensures IsPath(ap, Start(stream, p0), more) && moves <= more
    ensures AtCommand(At(ap, p0, stream, more).s) && At(ap, p0, stream, more).leader == At(ap, p0, stream, moves).leader
    decreases p - At(ap, p0, stream, moves).s.role.cursor
  {
    var s := At(ap, p0, stream, moves).s;
    if s.log[s.role.cursor - 1].IsCommand() {
      more := moves;
    } else {
      var on := Go(ap, p0, stream, moves, Skip, []);
      more := SkipToCommand(ap, p0, stream, on, p);
    }
  }

  // ---------- What can still be minted ----------

  /** A dispatch of the Command under the cursor can mint `x`. */
  ghost predicate MintsNow(c: Counted, acts: seq<Act>, k: int, x: nat)
  {
    && AtCommand(c.s) && CanMove(c, Move(Produce(Records(c.s.role.cursor, acts)), acts))
    && 0 <= k < |acts| && acts[k].Mint? && SeqTo(acts, c.leader.seqNo, k) == x
  }

  /** Some continuation comes to a dispatch that mints `x`. */
  ghost predicate MintedLater(ap: Applier, p0: Projection, stream: int, moves: seq<Move>, x: nat)
  {
    exists longer, acts, k ::
      moves <= longer && IsPath(ap, Start(stream, p0), longer) && MintsNow(At(ap, p0, stream, longer), acts, k, x)
  }

  lemma MoveNeverBack(ap: Applier, c: Counted, m: Move, x: nat)
    requires CanMove(c, m) && Ahead(Moved(ap, c, m), x)
    ensures Ahead(c, x)
  {
    var d := Moved(ap, c, m);
    assert c.s.log <= d.s.log;
    forall p, suffix: U64 | 0 <= p < |c.s.log| && Creates(c.s.log[p], suffix) ensures suffix < x {
      assert Creates(d.s.log[p], suffix);
    }
  }

  /** What has been passed stays passed: the counter never falls and the log only grows. */
  lemma {:induction false} NeverBack(ap: Applier, c: Counted, moves: seq<Move>, x: nat)
    requires IsPath(ap, c, moves) && Ahead(Arrived(ap, c, moves), x)
    ensures Ahead(c, x)
    decreases |moves|
  {
    if moves != [] {
      NeverBack(ap, Moved(ap, c, moves[0]), moves[1..], x);
      MoveNeverBack(ap, c, moves[0], x);
    }
  }

  lemma {:induction false} PathSplit(ap: Applier, c: Counted, moves: seq<Move>, longer: seq<Move>)
    requires IsPath(ap, c, longer) && moves <= longer
    ensures IsPath(ap, c, moves)
    ensures var rest := longer[|moves|..];
      IsPath(ap, Arrived(ap, c, moves), rest) && Arrived(ap, Arrived(ap, c, moves), rest) == Arrived(ap, c, longer)
    decreases |moves|
  {
    if moves == [] {
      assert longer[0..] == longer;
    } else {
      assert longer[1..][|moves| - 1..] == longer[|moves|..];
      PathSplit(ap, Moved(ap, c, moves[0]), moves[1..], longer[1..]);
    }
  }

  /**
   * With a Command under the cursor nothing above the watermark is an Event, so the counter has passed the
   * whole log.
   */
  lemma {:induction false} CounterPassedLog(ap: Applier, p0: Projection, stream: int, moves: seq<Move>)
    requires IsPath(ap, Start(stream, p0), moves) && AtCommand(At(ap, p0, stream, moves).s)
    ensures var c := At(ap, p0, stream, moves); Covers(c.leader.seqNo, c.s.log, |c.s.log|)
  {
    PathKeepsCounted(ap, p0, Start(stream, p0), moves);
    PassedLog(ap, p0, At(ap, p0, stream, moves));
  }

  lemma {:induction false} MintedWasAhead(ap: Applier, p0: Projection, stream: int, moves: seq<Move>, x: nat)
    requires IsPath(ap, Start(stream, p0), moves) && MintedLater(ap, p0, stream, moves, x)
    ensures Ahead(At(ap, p0, stream, moves), x)
  {
    var longer, acts, k :|
      moves <= longer && IsPath(ap, Start(stream, p0), longer) && MintsNow(At(ap, p0, stream, longer), acts, k, x);
    SeqRises(acts, At(ap, p0, stream, longer).leader.seqNo, 0, k);
    CounterPassedLog(ap, p0, stream, longer);
    PathSplit(ap, Start(stream, p0), moves, longer);
    NeverBack(ap, At(ap, p0, stream, moves), longer[|moves|..], x);
  }

  const SOME_COMMAND := Command(None, "")

  /** A dispatch that mints `n` suffixes and then emits a follow-up Command. */
  function MintThenSay(n: nat): seq<Act> { seq(n, _ => Mint) + [EmitCommand(SOME_COMMAND, 0)] }

  lemma {:induction false} MintsOnly(c: int, acts: seq<Act>, seqNo: nat, k: nat)
    requires k <= |acts| && forall i | 0 <= i < k :: acts[i] == Mint
    ensures SeqTo(acts, seqNo, k) == seqNo + k && RecordsTo(c, acts, k) == []
    decreases k
  {
    if k > 0 { MintsOnly(c, acts, seqNo, k - 1); }
  }

  lemma MintThenSayIsBatch(c: int, n: nat)
    ensures BatchOf(Records(c, MintThenSay(n)), c)
  {
    var acts := MintThenSay(n);
    MintsOnly(c, acts, 0, n);
    assert acts[n] == EmitCommand(SOME_COMMAND, 0);
    assert Records(c, acts) == [] + RecordOf(c, acts[n]);
    RecordsAreBatch(c, acts, |acts|);
  }

  lemma MintThenSayMints(c: Counted, x: nat)
    requires AtCommand(c.s) && c.leader.seqNo <= x
    ensures MintsNow(c, MintThenSay(x - c.leader.seqNo + 1), x - c.leader.seqNo, x)
  {
    var n := x - c.leader.seqNo + 1;
    MintsOnly(c.s.role.cursor, MintThenSay(n), c.leader.seqNo, n - 1);
    MintThenSayIsBatch(c.s.role.cursor, n);
    assert MintThenSay(n)[n - 1] == Mint;
  }

  /** Wherever a run stands, it can come to a crashed leader, with the same log and counter. */
  lemma {:induction false} ComeDown(ap: Applier, p0: Projection, stream: int, moves: seq<Move>)
    returns (more: seq<Move>)
    requires IsPath(ap, Start(stream, p0), moves)
    ensures IsPath(ap, Start(stream, p0), more) && moves <= more
    ensures var c, d := At(ap, p0, stream, moves), At(ap, p0, stream, more);
      d.s.role.Down? && d.s.log == c.s.log && d.leader.seqNo == c.leader.seqNo
  {
    if At(ap, p0, stream, moves).s.role.Down? {
      more := moves;
    } else {
      more := Go(ap, p0, stream, moves, Crash, []);
    }
  }

  /** A client's Command comes in behind whatever the log holds. */
  lemma {:induction false} ClientComes(ap: Applier, p0: Projection, stream: int, moves: seq<Move>)
    returns (more: seq<Move>)
    requires IsPath(ap, Start(stream, p0), moves) && At(ap, p0, stream, moves).s.role.Live?
    ensures IsPath(ap, Start(stream, p0), more) && moves <= more
    ensures var c, d := At(ap, p0, stream, moves), At(ap, p0, stream, more);
      && d.s.role == c.s.role && d.leader == c.leader
      && |d.s.log| == |c.s.log| + 2 && d.s.log[|c.s.log|].IsCommand()
  {
    more := Go(ap, p0, stream, moves, ClientAppend(SOME_COMMAND, 0, 0), []);
  }

  lemma {:induction false} AheadIsMinted(ap: Applier, p0: Projection, stream: int, moves: seq<Move>, x: nat)
    requires IsPath(ap, Start(stream, p0), moves) && Ahead(At(ap, p0, stream, moves), x)
    ensures MintedLater(ap, p0, stream, moves, x)
  {
    var down := ComeDown(ap, p0, stream, moves);
    var live := Reboot(ap, p0, stream, down, x);
    CounterCovers(ap, p0, stream, live);
    var came := ClientComes(ap, p0, stream, live);
    var longer := SkipToCommand(ap, p0, stream, came, |At(ap, p0, stream, live).s.log| + 1);
    var d := At(ap, p0, stream, longer);
    MintThenSayMints(d, x);
    assert MintsNow(d, MintThenSay(x - d.leader.seqNo + 1), x - d.leader.seqNo, x);
  }

  /**
   * Exactly which suffixes can still be minted: from any reachable state, some continuation, crashes and
   * restarts included, comes to a dispatch that mints `x` if and only if `x` is no lower than the committed
   * counter and above every suffix that an Event in the log, committed or not, created.
   */
  lemma {:induction false} MintedLaterIff(ap: Applier, p0: Projection, stream: int, moves: seq<Move>, x: nat)
    requires IsPath(ap, Start(stream, p0), moves)
    ensures MintedLater(ap, p0, stream, moves, x) <==> Ahead(At(ap, p0, stream, moves), x)
  {
    if MintedLater(ap, p0, stream, moves, x) { MintedWasAhead(ap, p0, stream, moves, x); }
    if Ahead(At(ap, p0, stream, moves), x) { AheadIsMinted(ap, p0, stream, moves, x); }
  }

  /** The same bound as one number: what the counter would be once every Event in the log is folded. */
  lemma {:induction false} AheadIff(seqNo: nat, log: seq<Entry>, w: nat, x: nat, n: nat)
    requires w <= n <= |log| && Covers(seqNo, log, w)
    ensures RaisedIn(seqNo, log, w, n) <= x <==> seqNo <= x && Covers(x, log, n)
    decreases n
  {
    if w < n {
      AheadIff(seqNo, log, w, x, n - 1);
      var e := log[n - 1];
      if e.IsEvent() && CreatedSuffix(e.payload.event).Some? && CreatedSuffix(e.payload.event).value < I64_MAX {
        assert Creates(e, CreatedSuffix(e.payload.event).value);
      }
    }
  }

  /**
   * "A minted name is never re-issued" holds of every committed mint; of one whose batch was appended and lost
   * its commit it holds exactly when the counter has passed it or an Event in the log created a suffix no lower.
   */
  lemma {:induction false} ReissuedIff(ap: Applier, p0: Projection, stream: int, moves: seq<Move>, x: nat)
    requires IsPath(ap, Start(stream, p0), moves)
    ensures var c := At(ap, p0, stream, moves);
      && (x in c.minted ==> !MintedLater(ap, p0, stream, moves, x))
      && c.s.w <= |c.s.log|
      && (MintedLater(ap, p0, stream, moves, x) <==> RaisedIn(c.leader.seqNo, c.s.log, c.s.w, |c.s.log|) <= x)
  {
    var c := At(ap, p0, stream, moves);
    CounterCovers(ap, p0, stream, moves);
    MintedLaterIff(ap, p0, stream, moves, x);
    AheadIff(c.leader.seqNo, c.s.log, c.s.w, x, |c.s.log|);
  }
}
