/**
 * The generated-name counter along every run: the protocol with the counter of each transaction carried
 * beside it. What a dispatch mints, what its create events raise, what a crash throws away.
 */
module Minting {
  import opened Entries
  import opened Protocol
  import opened Residue
  import opened Safety
  import opened Incarnation
  import opened Counter
  import opened Dispatching

  // ---------- The protocol with its counters ----------

  /** A step of the protocol; a dispatch also says by which acts its batch came about. */
  datatype Move = Move(step: Step, acts: seq<Act>)

  /** A step that is no dispatch. */
  function Just(step: Step): Move { Move(step, []) }

  datatype Counted = Counted(
    s: State,
    leader: SeqCell,          // the committed counter, and the one in the leader's open transaction
    replica: SeqCell,         // the same for the follower
    inHand: set<nat>,         // the suffixes minted by the dispatch whose batch is in hand
    minted: set<nat>,         // the suffixes minted by batches committed since
    lost: set<nat>)           // the suffixes minted by batches appended whose commit a crash prevented

  function Start(stream: int, p0: Projection): Counted
  {
    Counted(Init(stream, p0), SeqCell(0, None), SeqCell(0, None), {}, {}, {})
  }

  /** The suffixes the mints among the first `n` acts return. */
  function MintedTo(acts: seq<Act>, seqNo: nat, n: nat): set<nat>
    requires n <= |acts|
  {
    if n == 0 then {}
    else MintedTo(acts, seqNo, n - 1) + (if acts[n - 1].Mint? then {SeqTo(acts, seqNo, n - 1)} else {})
  }

  ghost predicate CanMove(c: Counted, m: Move)
  {
    Enabled(c.s, m.step) && (m.step.Produce? ==> m.step.batch == Records(c.s.role.cursor, m.acts))
  }

  /** A commit keeps the larger counter. */
  function Land(c: SeqCell): SeqCell { SeqCell(if c.held.Some? then Max(c.seqNo, c.held.value) else c.seqNo, None) }

  ghost function Moved(ap: Applier, c: Counted, m: Move): Counted
    requires CanMove(c, m)
  {
    var next := c.(s := Next(ap, c.s, m.step));
    match m.step
    case RecoverRead => next.(leader := AbsorbSeq(c.leader, c.s.log[c.s.role.pos - 1]))
    case Produce(_) =>
      next.(leader := c.leader.(held := Some(SeqAfter(m.acts, c.leader.seqNo))),
            inHand := MintedTo(m.acts, c.leader.seqNo, |m.acts|))
    case Refuse(_, _) => next.(leader := c.leader.(held := Some(c.leader.seqNo)), inHand := {})
    case Commit => next.(leader := Land(c.leader), minted := c.minted + c.inHand, inHand := {})
    case Crash =>
      next.(leader := c.leader.(held := None), inHand := {},
            lost := if c.s.role.Live? && c.s.role.stage.Appended? then c.lost + c.inHand else c.lost)
    case ReplicaRead => next.(replica := AbsorbSeq(c.replica, c.s.log[c.s.replica.cursor - 1]))
    case ReplicaCrash => next.(replica := c.replica.(held := None))
    case _ => next
  }

  ghost predicate IsPath(ap: Applier, c: Counted, moves: seq<Move>)
    decreases |moves|
  {
    moves == [] || (CanMove(c, moves[0]) && IsPath(ap, Moved(ap, c, moves[0]), moves[1..]))
  }

  ghost function Arrived(ap: Applier, c: Counted, moves: seq<Move>): Counted
    requires IsPath(ap, c, moves)
    decreases |moves|
  {
    if moves == [] then c else Arrived(ap, Moved(ap, c, moves[0]), moves[1..])
  }

  // ---------- What a dispatch does to the counter ----------

  /** A mint returns what the counter has come to, so nothing minted or created earlier in the same dispatch. */
  lemma {:induction false} MintedBelow(acts: seq<Act>, seqNo: nat, n: nat)
    requires n <= |acts|
    ensures forall x | x in MintedTo(acts, seqNo, n) :: seqNo <= x < SeqTo(acts, seqNo, n)
  {
    if n > 0 {
      MintedBelow(acts, seqNo, n - 1);
      SeqRises(acts, seqNo, 0, n - 1);
      SeqRises(acts, seqNo, n - 1, n);
    }
  }

  /**
   * Each mint of one dispatch is above the committed counter, above its earlier mints and above what it created
   * so far.
   */
  lemma MintIsNew(c: int, acts: seq<Act>, seqNo: nat, k: nat)
    requires k < |acts| && acts[k].Mint?
    ensures seqNo <= SeqTo(acts, seqNo, k)
    ensures SeqTo(acts, seqNo, k) !in MintedTo(acts, seqNo, k)
    ensures Covers(SeqTo(acts, seqNo, k), RecordsTo(c, acts, k), |RecordsTo(c, acts, k)|)
  {
    SeqRises(acts, seqNo, 0, k);
    MintedBelow(acts, seqNo, k);
    SeqCovers(c, acts, seqNo, k);
  }

  // ---------- The invariant ----------

  /** What a read-back's counters cover after `n` entries. */
  ghost predicate SeqCellInv(log: seq<Entry>, c: Cell, d: SeqCell, n: int)
    requires n <= |log|
  {
    && c.w <= |log| && Covers(d.seqNo, log, c.w)
    && c.txn.Some? == d.held.Some?
    && (d.held.Some? ==> d.seqNo <= d.held.value && Covers(d.held.value, log, n))
  }

  lemma CoversQuiet(seqNo: nat, log: seq<Entry>, a: nat, b: nat)
    requires a <= b <= |log| && Covers(seqNo, log, a) && QuietBetween(log, a, b)
    ensures Covers(seqNo, log, b)
  {
  }

  lemma CoversGrows(seqNo: nat, log: seq<Entry>, longer: seq<Entry>, n: nat)
    requires n <= |log| && log <= longer && Covers(seqNo, log, n)
    ensures Covers(seqNo, longer, n)
  {
  }

  lemma ReadKeepsSeq(ap: Applier, p0: Projection, log: seq<Entry>, c: Cell, d: SeqCell, n: nat)
    requires n < |log| && CellInv(ap, p0, log, c, n) && SeqCellInv(log, c, d, n)
    ensures SeqCellInv(log, Absorb(ap, c, log[n], n + 1), AbsorbSeq(d, log[n]), n + 1)
  {
    if log[n].IsEvent() {
      if d.held.None? { CoversQuiet(d.seqNo, log, c.w, n); }
      var base := if d.held.Some? then d.held.value else d.seqNo;
      RaisedCovers(base, log, n, n + 1);
      assert RaisedIn(base, log, n, n + 1) == Raise(RaisedIn(base, log, n, n), log[n].payload.event);
    }
  }

  lemma GrowSeqCell(log: seq<Entry>, group: seq<Entry>, c: Cell, d: SeqCell, n: nat)
    requires n <= |log| && SeqCellInv(log, c, d, n)
    ensures SeqCellInv(log + group, c, d, n)
  {
    CoversGrows(d.seqNo, log, log + group, c.w);
    if d.held.Some? { CoversGrows(d.held.value, log, log + group, n); }
  }

  /** Committing the batch in flight carries the counter over every Event up to its Noop. */
  lemma CommitCovers(log: seq<Entry>, w: nat, batch: seq<Entry>, c: int, last: nat, orphans: set<int>, seqNo: nat,
                     held: nat)
    requires InFlight(log, w, batch, c, last, orphans) && w <= |log| && Covers(seqNo, log, w)
    requires seqNo <= held && Covers(held, batch, |batch|)
    ensures last <= |log| && Covers(held, log, last)
  {
    var first := last - 1 - |batch|;
    forall p, suffix: U64 | 0 <= p < last && Creates(log[p], suffix) ensures suffix < held {
      if first <= p < last - 1 {
        assert batch[p - first].payload == log[p].payload;
        assert Creates(batch[p - first], suffix);
      }
    }
  }

  /** The leader holds a counter exactly while a batch is open or in hand. */
  ghost predicate InHand(r: Role)
  {
    match r
    case Down => false
    case Recovering(_, _, txn, _) => txn.Some?
    case Live(_, _, _, _, _, stage, _) => stage.Dispatched? || stage.Appended?
  }

  ghost predicate LeaderInv(c: Counted)
  {
    && c.s.w <= |c.s.log| && Covers(c.leader.seqNo, c.s.log, c.s.w)
    && (c.leader.held.Some? <==> InHand(c.s.role))
    && (forall x | x in c.minted :: x < c.leader.seqNo)
    && match c.s.role
       case Down => true
       case Recovering(_, pos, txn, _) =>
         1 <= pos <= |c.s.log| + 1 && SeqCellInv(c.s.log, Cell(c.s.store, c.s.w, txn), c.leader, pos - 1)
       case Live(_, _, _, _, _, stage, _) =>
         InHand(c.s.role) ==>
           && c.leader.seqNo <= c.leader.held.value && Covers(c.leader.held.value, stage.batch, |stage.batch|)
           && forall x | x in c.inHand :: x < c.leader.held.value
  }

  ghost predicate ReplicaSeqInv(c: Counted)
  {
    && c.s.replicaW <= |c.s.log| && Covers(c.replica.seqNo, c.s.log, c.s.replicaW)
    && match c.s.replica
       case ReplicaDown => c.replica.held.None?
       case Tailing(cursor, txn) =>
         1 <= cursor <= |c.s.log| + 1 &&
           SeqCellInv(c.s.log, Cell(c.s.replicaStore, c.s.replicaW, txn), c.replica, cursor - 1)
  }

  // ---------- Every move keeps it ----------

  ghost predicate CountedInv(ap: Applier, p0: Projection, c: Counted)
  {
    FullInv(ap, p0, c.s) && LeaderInv(c) && ReplicaSeqInv(c)
  }

  lemma GrowLeader(c: Counted, group: seq<Entry>)
    requires LeaderInv(c)
    ensures LeaderInv(c.(s := c.s.(log := c.s.log + group)))
  {
    CoversGrows(c.leader.seqNo, c.s.log, c.s.log + group, c.s.w);
    if c.s.role.Recovering? {
      GrowSeqCell(c.s.log, group, Cell(c.s.store, c.s.w, c.s.role.txn), c.leader, c.s.role.pos - 1);
    }
  }

  lemma GrowReplicaSeq(c: Counted, group: seq<Entry>)
    requires ReplicaSeqInv(c)
    ensures ReplicaSeqInv(c.(s := c.s.(log := c.s.log + group)))
  {
    CoversGrows(c.replica.seqNo, c.s.log, c.s.log + group, c.s.replicaW);
    if c.s.replica.Tailing? {
      GrowSeqCell(c.s.log, group, Cell(c.s.replicaStore, c.s.replicaW, c.s.replica.txn), c.replica,
        c.s.replica.cursor - 1);
    }
  }

  lemma AppendKeepsLeader(ap: Applier, c: Counted, m: Move)
    requires LeaderInv(c) && CanMove(c, m) && (m.step.ClientAppend? || m.step.AppendBatch?)
    ensures LeaderInv(Moved(ap, c, m))
  {
    var longer := Next(ap, c.s, m.step).log;
    assert longer == c.s.log + longer[|c.s.log|..];
    GrowLeader(c, longer[|c.s.log|..]);
  }

  lemma DispatchKeepsLeader(ap: Applier, c: Counted, m: Move)
    requires LeaderInv(c) && CanMove(c, m) && (m.step.Produce? || m.step.Refuse?)
    ensures LeaderInv(Moved(ap, c, m))
  {
    if m.step.Produce? {
      SeqCovers(c.s.role.cursor, m.acts, c.leader.seqNo, |m.acts|);
      SeqRises(m.acts, c.leader.seqNo, 0, |m.acts|);
      MintedBelow(m.acts, c.leader.seqNo, |m.acts|);
    }
  }

  lemma CommitKeepsLeader(ap: Applier, p0: Projection, c: Counted, m: Move)
    requires RoleInv(ap, p0, c.s) && LeaderInv(c) && CanMove(c, m) && m.step.Commit?
    ensures LeaderInv(Moved(ap, c, m))
  {
    var stage := c.s.role.stage;
    CommitCovers(c.s.log, c.s.w, stage.batch, c.s.role.cursor, stage.last, c.s.orphans, c.leader.seqNo,
      c.leader.held.value);
  }

  lemma ReadKeepsLeader(ap: Applier, p0: Projection, c: Counted, m: Move)
    requires RoleInv(ap, p0, c.s) && LeaderInv(c) && CanMove(c, m) && m.step.RecoverRead?
    ensures LeaderInv(Moved(ap, c, m))
  {
    ReadKeepsSeq(ap, p0, c.s.log, Cell(c.s.store, c.s.w, c.s.role.txn), c.leader, c.s.role.pos - 1);
  }

  lemma DoneKeepsLeader(ap: Applier, p0: Projection, c: Counted, m: Move)
    requires Inv(ap, p0, c.s) && LeaderInv(c) && CanMove(c, m) && m.step.RecoverDone?
    ensures LeaderInv(Moved(ap, c, m))
  {
    DoneKeepsRole(ap, p0, c.s);
  }

  lemma OtherKeepsLeader(ap: Applier, c: Counted, m: Move)
    requires LeaderInv(c) && CanMove(c, m)
    requires m.step.Boot? || m.step.Announce? || m.step.Skip? || m.step.Crash?
             || m.step.ReplicaBoot? || m.step.ReplicaRead? || m.step.ReplicaCrash?
    ensures LeaderInv(Moved(ap, c, m))
  {
  }

  lemma MoveKeepsLeader(ap: Applier, p0: Projection, c: Counted, m: Move)
    requires Inv(ap, p0, c.s) && LeaderInv(c) && CanMove(c, m)
    ensures LeaderInv(Moved(ap, c, m))
  {
    match m.step {
      case ClientAppend(_, _, _) => AppendKeepsLeader(ap, c, m);
      case AppendBatch(_) => AppendKeepsLeader(ap, c, m);
      case Produce(_) => DispatchKeepsLeader(ap, c, m);
      case Refuse(_, _) => DispatchKeepsLeader(ap, c, m);
      case Commit => CommitKeepsLeader(ap, p0, c, m);
      case RecoverRead => ReadKeepsLeader(ap, p0, c, m);
      case RecoverDone => DoneKeepsLeader(ap, p0, c, m);
      case _ => OtherKeepsLeader(ap, c, m);
    }
  }

  lemma AppendKeepsReplicaSeq(ap: Applier, c: Counted, m: Move)
    requires ReplicaSeqInv(c) && CanMove(c, m) && (m.step.ClientAppend? || m.step.AppendBatch?)
    ensures ReplicaSeqInv(Moved(ap, c, m))
  {
    var longer := Next(ap, c.s, m.step).log;
    assert longer == c.s.log + longer[|c.s.log|..];
    GrowReplicaSeq(c, longer[|c.s.log|..]);
  }

  lemma MoveKeepsReplica(ap: Applier, p0: Projection, c: Counted, m: Move)
    requires ReplicaInv(ap, p0, c.s) && ReplicaSeqInv(c) && CanMove(c, m)
    ensures ReplicaSeqInv(Moved(ap, c, m))
  {
    if m.step.ClientAppend? || m.step.AppendBatch? {
      AppendKeepsReplicaSeq(ap, c, m);
    } else if m.step.ReplicaRead? {
      ReadKeepsSeq(ap, p0, c.s.log, Cell(c.s.replicaStore, c.s.replicaW, c.s.replica.txn), c.replica,
        c.s.replica.cursor - 1);
    }
  }

  lemma MoveKeepsCounted(ap: Applier, p0: Projection, c: Counted, m: Move)
    requires CountedInv(ap, p0, c) && CanMove(c, m)
    ensures CountedInv(ap, p0, Moved(ap, c, m))
  {
    StepKeepsFull(ap, p0, c.s, m.step);
    MoveKeepsLeader(ap, p0, c, m);
    MoveKeepsReplica(ap, p0, c, m);
  }

  lemma {:induction false} PathKeepsCounted(ap: Applier, p0: Projection, c: Counted, moves: seq<Move>)
    requires CountedInv(ap, p0, c) && IsPath(ap, c, moves)
    ensures CountedInv(ap, p0, Arrived(ap, c, moves))
    decreases |moves|
  {
    if moves != [] {
      MoveKeepsCounted(ap, p0, c, moves[0]);
      PathKeepsCounted(ap, p0, Moved(ap, c, moves[0]), moves[1..]);
    }
  }

  // ---------- What follows ----------

  /**
   * In every reachable state, crashes anywhere, the committed counter has passed the suffix of every name
   * created by an Event at or below the watermark, and every suffix a committed batch minted; a follower's
   * counter likewise for what it has committed; and no commit ever lowers a counter.
   */
  lemma {:induction false} CounterCovers(ap: Applier, p0: Projection, stream: int, moves: seq<Move>)
    requires IsPath(ap, Start(stream, p0), moves)
    ensures var c := Arrived(ap, Start(stream, p0), moves);
      && c.s.w <= |c.s.log| && Covers(c.leader.seqNo, c.s.log, c.s.w)
      && c.s.replicaW <= |c.s.log| && Covers(c.replica.seqNo, c.s.log, c.s.replicaW)
      && (forall x | x in c.minted :: x < c.leader.seqNo)
      && (c.leader.held.Some? ==> c.leader.seqNo <= c.leader.held.value)
      && (c.replica.held.Some? ==> c.replica.seqNo <= c.replica.held.value)
  {
    PathKeepsCounted(ap, p0, Start(stream, p0), moves);
  }

  /**
   * So whatever a dispatch mints, from any reachable state, is no suffix of a name created by an Event at or
   * below the watermark, which at a dispatch is every Event in the log; none that a committed batch minted;
   * and none it minted or created itself before.
   */
  lemma {:induction false} MintsAreFresh(ap: Applier, p0: Projection, stream: int, moves: seq<Move>, acts: seq<Act>,
                                         k: nat)
    requires IsPath(ap, Start(stream, p0), moves) && k < |acts| && acts[k].Mint?
    ensures var c := Arrived(ap, Start(stream, p0), moves);
      var x := SeqTo(acts, c.leader.seqNo, k);
      && c.s.w <= |c.s.log|
      && (forall p | 0 <= p < c.s.w :: !Creates(c.s.log[p], x))
      && (AtCommand(c.s) ==> forall p | 0 <= p < |c.s.log| :: !Creates(c.s.log[p], x))
      && x !in c.minted && x !in MintedTo(acts, c.leader.seqNo, k)
      && (forall e | e in RecordsTo(c.s.w, acts, k) :: !Creates(e, x))
  {
    PathKeepsCounted(ap, p0, Start(stream, p0), moves);
    var c := Arrived(ap, Start(stream, p0), moves);
    var x := SeqTo(acts, c.leader.seqNo, k);
    MintIsNew(c.s.w, acts, c.leader.seqNo, k);
    NotCreated(x, RecordsTo(c.s.w, acts, k), |RecordsTo(c.s.w, acts, k)|, x);
    NotCreated(c.leader.seqNo, c.s.log, c.s.w, x);
    if AtCommand(c.s) {
      PassedLog(ap, p0, c);
      NotCreated(c.leader.seqNo, c.s.log, |c.s.log|, x);
    }
  }

  lemma NotCreated(seqNo: nat, log: seq<Entry>, n: nat, x: nat)
    requires n <= |log| && Covers(seqNo, log, n) && seqNo <= x
    ensures forall p | 0 <= p < n :: !Creates(log[p], x)
  {
  }

  /** With a Command under the cursor nothing above the watermark is an Event: the counter has passed the whole log. */
  lemma PassedLog(ap: Applier, p0: Projection, c: Counted)
    requires CountedInv(ap, p0, c) && AtCommand(c.s)
    ensures Covers(c.leader.seqNo, c.s.log, |c.s.log|)
  {
    CoversQuiet(c.leader.seqNo, c.s.log, c.s.w, |c.s.log|);
  }

  // ---------- Paths and runs ----------

  function Plain(moves: seq<Move>): seq<Step> { seq(|moves|, i requires 0 <= i < |moves| => moves[i].step) }

  /** Without its counters, a path is a run of the protocol. */
  lemma {:induction false} PathIsRun(ap: Applier, c: Counted, moves: seq<Move>)
    requires IsPath(ap, c, moves)
    ensures IsRun(ap, c.s, Plain(moves)) && Arrived(ap, c, moves).s == After(ap, c.s, Plain(moves))
    decreases |moves|
  {
    if moves != [] {
      assert Plain(moves)[0] == moves[0].step && Plain(moves)[1..] == Plain(moves[1..]);
      MovedIsNext(ap, c, moves[0]);
      PathIsRun(ap, Moved(ap, c, moves[0]), moves[1..]);
    }
  }

  lemma MovedIsNext(ap: Applier, c: Counted, m: Move)
    requires CanMove(c, m)
    ensures Moved(ap, c, m).s == Next(ap, c.s, m.step)
  {
  }

  lemma {:induction false} PathConcat(ap: Applier, c: Counted, a: seq<Move>, b: seq<Move>)
    requires IsPath(ap, c, a) && IsPath(ap, Arrived(ap, c, a), b)
    ensures IsPath(ap, c, a + b) && Arrived(ap, c, a + b) == Arrived(ap, Arrived(ap, c, a), b)
    decreases |a|
  {
    if a == [] {
      assert a + b == b;
    } else {
      assert (a + b)[1..] == a[1..] + b;
      PathConcat(ap, Moved(ap, c, a[0]), a[1..], b);
    }
  }

  lemma {:induction false} PathSnoc(ap: Applier, c: Counted, moves: seq<Move>, m: Move)
    requires IsPath(ap, c, moves) && CanMove(Arrived(ap, c, moves), m)
    ensures IsPath(ap, c, moves + [m]) && Arrived(ap, c, moves + [m]) == Moved(ap, Arrived(ap, c, moves), m)
  {
    var d := Arrived(ap, c, moves);
    assert IsPath(ap, Moved(ap, d, m), []) && [m][1..] == [];
    assert Arrived(ap, d, [m]) == Arrived(ap, Moved(ap, d, m), []);
    PathConcat(ap, c, moves, [m]);
  }
}
