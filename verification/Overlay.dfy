/** The in-memory store and its read-your-writes transaction: buffered decisions overlaid on committed maps. */
module Overlay {
  import opened Entries
  import opened Names
  import opened Keys
  import opened Counter

  /** A stored row. Its codec round-trips, so only its identity matters here. */
  type Row(==, !new)

  type Bindings = map<string, string>

  datatype Ref = Ref(kind: Kind, name: Name, uid: nat)

  type RowId = (Kind, Name)

  type Pair = (Ref, Ref)

  // ---------- What a reader can see, and what one write does to it ----------

  datatype View = View(rows: map<RowId, Row>, vars: map<Name, Bindings>, edges: set<Pair>, nextSeq: int)

  datatype Op =
    | PutRow(kind: Kind, name: Name, row: Row)
    | PutVariables(thread: Name, bindings: Bindings)
    | AddChild(parent: Ref, child: Ref)
    | RemoveChild(parent: Ref, child: Ref)
    | PutNextSeq(seqNo: int)

  function Apply(v: View, op: Op): View
  {
    match op
    case PutRow(kind, name, row) => v.(rows := v.rows[(kind, name) := row])
    case PutVariables(thread, bindings) => v.(vars := v.vars[thread := bindings])
    case AddChild(parent, child) => v.(edges := v.edges + {(parent, child)})
    case RemoveChild(parent, child) => v.(edges := v.edges - {(parent, child)})
    case PutNextSeq(seqNo) => v.(nextSeq := seqNo)
  }

  function ApplyAll(v: View, ops: seq<Op>): View
  {
    if ops == [] then v else Apply(ApplyAll(v, ops[..|ops| - 1]), ops[|ops| - 1])
  }

  function RowOf(v: View, kind: Kind, name: Name): Option<Row>
  {
    if (kind, name) in v.rows then Some(v.rows[(kind, name)]) else None
  }

  /** A thread that never assigned has an empty scope. */
  function VariablesOf(v: View, thread: Name): Bindings
  {
    if thread in v.vars then v.vars[thread] else map[]
  }

  function ChildrenOf(v: View, parent: Ref): set<Ref>
  {
    set e | e in v.edges && e.0 == parent :: e.1
  }

  // ---------- The buffered batch ----------

  datatype Batch = Batch(rows: map<RowId, Row>, vars: map<Name, Bindings>, edges: map<Pair, bool>, nextSeq: Option<int>)

  const NO_WRITES := Batch(map[], map[], map[], None)

  function Buffer(b: Batch, op: Op): Batch
  {
    match op
    case PutRow(kind, name, row) => b.(rows := b.rows[(kind, name) := row])
    case PutVariables(thread, bindings) => b.(vars := b.vars[thread := bindings])
    case AddChild(parent, child) => b.(edges := b.edges[(parent, child) := true])
    case RemoveChild(parent, child) => b.(edges := b.edges[(parent, child) := false])
    case PutNextSeq(seqNo) => b.(nextSeq := Some(seqNo))
  }

  function Buffered(ops: seq<Op>): Batch
  {
    if ops == [] then NO_WRITES else Buffer(Buffered(ops[..|ops| - 1]), ops[|ops| - 1])
  }

  function LandEdges(edges: set<Pair>, decided: map<Pair, bool>): set<Pair>
  {
    (set e | e in edges && (e in decided ==> decided[e])) + (set e | e in decided && decided[e])
  }

  /** Committed state with the batch winning: how each read of the transaction resolves. */
  function Overlaid(v: View, b: Batch): View
  {
    View(v.rows + b.rows, v.vars + b.vars, LandEdges(v.edges, b.edges),
         if b.nextSeq.Some? then b.nextSeq.value else v.nextSeq)
  }

  /** Reading through the overlay is reading the store with the operations applied one after another. */
  lemma {:induction false} OverlayIsApply(v: View, ops: seq<Op>)
    ensures Overlaid(v, Buffered(ops)) == ApplyAll(v, ops)
    decreases |ops|
  {
    if ops != [] {
      OverlayIsApply(v, ops[..|ops| - 1]);
      BufferIsApply(v, Buffered(ops[..|ops| - 1]), ops[|ops| - 1]);
    }
  }

  lemma BufferIsApply(v: View, b: Batch, op: Op)
    ensures Overlaid(v, Buffer(b, op)) == Apply(Overlaid(v, b), op)
  {
    match op {
      case PutRow(kind, name, row) =>
        assert v.rows + b.rows[(kind, name) := row] == (v.rows + b.rows)[(kind, name) := row];
      case PutVariables(thread, bindings) =>
        assert v.vars + b.vars[thread := bindings] == (v.vars + b.vars)[thread := bindings];
      case AddChild(parent, child) =>
        assert LandEdges(v.edges, b.edges[(parent, child) := true]) == LandEdges(v.edges, b.edges) + {(parent, child)};
      case RemoveChild(parent, child) =>
        assert LandEdges(v.edges, b.edges[(parent, child) := false]) == LandEdges(v.edges, b.edges) - {(parent, child)};
      case PutNextSeq(_) =>
    }
  }

  // ---------- Commit ----------

  /** The counter the batch would leave, if it touched it. */
  function PendingSeq(ops: seq<Op>): Option<int> { Buffered(ops).nextSeq }

  /**
   * What a commit leaves: the maps extended by the batch, its edge decisions landed, and a counter that never
   * moves down.
   */
  function Landed(v: View, ops: seq<Op>): View
  {
    Overlaid(v, Buffered(ops)).(nextSeq := LandedSeq(v, ops))
  }

  /**
   * Everything read through the transaction is what the store answers after its commit, except the
   * counter, which is so exactly when the batch did not lower it.
   */
  lemma ReadsSurviveCommit(v: View, ops: seq<Op>)
    ensures Landed(v, ops).(nextSeq := 0) == ApplyAll(v, ops).(nextSeq := 0)
    ensures Landed(v, ops) == ApplyAll(v, ops) <==> (PendingSeq(ops).Some? ==> v.nextSeq <= PendingSeq(ops).value)
  {
    OverlayIsApply(v, ops);
  }

  lemma LandedIsApply(v: View, ops: seq<Op>)
    ensures Landed(v, ops) == ApplyAll(v, ops).(nextSeq := LandedSeq(v, ops))
  {
    OverlayIsApply(v, ops);
  }

  /** Each operation committed on its own. */
  function OneByOne(v: View, ops: seq<Op>): View
  {
    if ops == [] then v else Landed(OneByOne(v, ops[..|ops| - 1]), [ops[|ops| - 1]])
  }

  /** The largest counter any of the operations puts, or the committed one. */
  function HighSeq(v: View, ops: seq<Op>): int
  {
    if ops == [] then v.nextSeq
    else
      var high := HighSeq(v, ops[..|ops| - 1]);
      var last := ops[|ops| - 1];
      if last.PutNextSeq? then Max(high, last.seqNo) else high
  }

  lemma {:induction false} OneByOneState(v: View, ops: seq<Op>)
    ensures OneByOne(v, ops) == ApplyAll(v, ops).(nextSeq := HighSeq(v, ops))
    decreases |ops|
  {
    if ops != [] {
      var last := ops[|ops| - 1];
      OneByOneState(v, ops[..|ops| - 1]);
      LandedIsApply(OneByOne(v, ops[..|ops| - 1]), [last]);
      assert [last][..0] == [];
      assert Buffered([last]) == Buffer(Buffered([]), last);
      assert ApplyAll(OneByOne(v, ops[..|ops| - 1]), [last]) == Apply(OneByOne(v, ops[..|ops| - 1]), last);
    }
  }

  lemma {:induction false} HighSeqIsLargest(v: View, ops: seq<Op>)
    ensures v.nextSeq <= HighSeq(v, ops)
    ensures forall i | 0 <= i < |ops| && ops[i].PutNextSeq? :: ops[i].seqNo <= HighSeq(v, ops)
    ensures HighSeq(v, ops) == v.nextSeq || exists i | 0 <= i < |ops| :: ops[i] == PutNextSeq(HighSeq(v, ops))
    decreases |ops|
  {
    if ops != [] {
      HighSeqIsLargest(v, ops[..|ops| - 1]);
      assert ops == ops[..|ops| - 1] + [ops[|ops| - 1]];
    }
  }

  /** What the batch leaves the counter at: its last put, or the committed counter if that is higher. */
  function LandedSeq(v: View, ops: seq<Op>): int
  {
    if PendingSeq(ops).Some? then Max(v.nextSeq, PendingSeq(ops).value) else v.nextSeq
  }

  lemma {:induction false} PendingIsPut(ops: seq<Op>)
    requires PendingSeq(ops).Some?
    ensures exists i | 0 <= i < |ops| :: ops[i] == PutNextSeq(PendingSeq(ops).value)
    decreases |ops|
  {
    if !ops[|ops| - 1].PutNextSeq? {
      PendingIsPut(ops[..|ops| - 1]);
    }
  }

  /**
   * One commit of the batch is the operations committed one by one, except the counter, which is so
   * exactly when no put went above both the last put and the committed counter.
   */
  lemma CommitIsOneByOne(v: View, ops: seq<Op>)
    ensures Landed(v, ops).(nextSeq := 0) == OneByOne(v, ops).(nextSeq := 0)
    ensures Landed(v, ops) == OneByOne(v, ops) <==>
      forall i | 0 <= i < |ops| && ops[i].PutNextSeq? :: ops[i].seqNo <= LandedSeq(v, ops)
  {
    OneByOneState(v, ops);
    LandedIsApply(v, ops);
    HighSeqIsLargest(v, ops);
    if PendingSeq(ops).Some? { PendingIsPut(ops); }
  }

  /**
   * No put of the counter is below what the transaction reads at that point: so for a mint, and for a create
   * event's raise.
   */
  ghost predicate OnlyRaises(v: View, ops: seq<Op>)
  {
    forall i | 0 <= i < |ops| && ops[i].PutNextSeq? :: ops[i].seqNo >= ApplyAll(v, ops[..i]).nextSeq
  }

  lemma {:induction false} RaisesReachHigh(v: View, ops: seq<Op>)
    requires OnlyRaises(v, ops)
    ensures ApplyAll(v, ops).nextSeq == HighSeq(v, ops)
    decreases |ops|
  {
    if ops != [] {
      var front := ops[..|ops| - 1];
      assert forall i | 0 <= i < |front| :: front[..i] == ops[..i];
      RaisesReachHigh(v, front);
    }
  }

  /** With a counter that is only ever raised, commit, the transaction's own reads and one-by-one commits all agree. */
  lemma RaisingAgrees(v: View, ops: seq<Op>)
    requires OnlyRaises(v, ops)
    ensures Landed(v, ops) == ApplyAll(v, ops) == OneByOne(v, ops)
  {
    RaisesReachHigh(v, ops);
    OneByOneState(v, ops);
    HighSeqIsLargest(v, ops);
    OverlayIsApply(v, ops);
  }

  // ---------- Edges ----------

  predicate Mentions(op: Op, e: Pair) { (op.AddChild? || op.RemoveChild?) && (op.parent, op.child) == e }

  /** The last decision on an edge is the one that stands; without one, the committed edge does. */
  lemma {:induction false} LastDecisionWins(v: View, ops: seq<Op>, e: Pair)
    ensures (forall i | 0 <= i < |ops| :: !Mentions(ops[i], e)) ==> (e in ApplyAll(v, ops).edges <==> e in v.edges)
    ensures forall i | 0 <= i < |ops| && Mentions(ops[i], e) && (forall j | i < j < |ops| :: !Mentions(ops[j], e)) ::
      e in ApplyAll(v, ops).edges <==> ops[i].AddChild?
    decreases |ops|
  {
    if ops != [] {
      LastDecisionWins(v, ops[..|ops| - 1], e);
    }
  }

  // ---------- Rows and scopes ----------

  predicate PutsRow(op: Op, id: RowId) { op.PutRow? && (op.kind, op.name) == id }

  predicate PutsScope(op: Op, thread: Name) { op.PutVariables? && op.thread == thread }

  /** The last row put under a kind and name is the one read there; without one (`i` is -1), the committed row is. */
  lemma {:induction false} LastRowWins(v: View, ops: seq<Op>, id: RowId, i: int)
    requires -1 <= i < |ops| && (i >= 0 ==> PutsRow(ops[i], id)) && forall j | i < j < |ops| :: !PutsRow(ops[j], id)
    ensures RowOf(ApplyAll(v, ops), id.0, id.1) == if i < 0 then RowOf(v, id.0, id.1) else Some(ops[i].row)
    decreases |ops|
  {
    if 0 <= i == |ops| - 1 {
      assert RowOf(Apply(ApplyAll(v, ops[..i]), ops[i]), id.0, id.1) == Some(ops[i].row);
    } else if ops != [] {
      LastRowWins(v, ops[..|ops| - 1], id, i);
    }
  }

  /** The same of a thread's scope. */
  lemma {:induction false} LastScopeWins(v: View, ops: seq<Op>, thread: Name, i: int)
    requires -1 <= i < |ops| && (i >= 0 ==> PutsScope(ops[i], thread))
    requires forall j | i < j < |ops| :: !PutsScope(ops[j], thread)
    ensures VariablesOf(ApplyAll(v, ops), thread) == if i < 0 then VariablesOf(v, thread) else ops[i].bindings
    decreases |ops|
  {
    if 0 <= i == |ops| - 1 {
      assert VariablesOf(Apply(ApplyAll(v, ops[..i]), ops[i]), thread) == ops[i].bindings;
    } else if ops != [] {
      LastScopeWins(v, ops[..|ops| - 1], thread, i);
    }
  }

  // ---------- The store and its transaction ----------

  class InMemoryDb {
    var rows: map<RowId, Row>
    var vars: map<Name, Bindings>
    var edges: set<Pair>
    var nextSeq: int
    var position: int

    constructor ()
      ensures Seen() == View(map[], map[], {}, 0) && position == 0
    {
      rows, vars, edges, nextSeq, position := map[], map[], {}, 0, 0;
    }

    function Seen(): View
      reads this
    {
      View(rows, vars, edges, nextSeq)
    }

    /** The raw writes of the store, outside a transaction; the counter has none. */
    method Write(op: Op)
      requires !op.PutNextSeq?
      modifies this
      ensures Seen() == Apply(old(Seen()), op) && position == old(position)
    {
      match op {
        case PutRow(kind, name, row) => rows := rows[(kind, name) := row];
        case PutVariables(thread, bindings) => vars := vars[thread := bindings];
        case AddChild(parent, child) => edges := edges + {(parent, child)};
        case RemoveChild(parent, child) => edges := edges - {(parent, child)};
      }
    }
  }

  /**
   * An owned transaction: dropping it unused is all it takes to abort, since nothing below touches the store
   * but `Commit`.
   */
  class InMemoryTxn {
    const db: InMemoryDb
    var rows: map<RowId, Row>
    var vars: map<Name, Bindings>
    var edges: map<Pair, bool>
    var nextSeq: Option<int>
    ghost var ops: seq<Op>

    ghost predicate Valid()
      reads this
    {
      Batch(rows, vars, edges, nextSeq) == Buffered(ops)
    }

    /** The store with this transaction's operations applied in order. */
    ghost function Seen(): View
      reads this, db
    {
      ApplyAll(db.Seen(), ops)
    }

    constructor (db: InMemoryDb)
      ensures Valid() && this.db == db && ops == []
    {
      this.db := db;
      rows, vars, edges, nextSeq := map[], map[], map[], None;
      ops := [];
    }

    method Write(op: Op)
      requires Valid()
      modifies this
      ensures Valid() && ops == old(ops) + [op] && Seen() == Apply(old(Seen()), op)
    {
      match op {
        case PutRow(kind, name, row) => rows := rows[(kind, name) := row];
        case PutVariables(thread, bindings) => vars := vars[thread := bindings];
        case AddChild(parent, child) => edges := edges[(parent, child) := true];
        case RemoveChild(parent, child) => edges := edges[(parent, child) := false];
        case PutNextSeq(seqNo) => nextSeq := Some(seqNo);
      }
      ops := ops + [op];
      assert ops[..|ops| - 1] == old(ops);
    }

    method GetRow(kind: Kind, name: Name) returns (r: Option<Row>)
      requires Valid()
      ensures r == RowOf(Seen(), kind, name)
    {
      OverlayIsApply(db.Seen(), ops);
      if (kind, name) in rows { return Some(rows[(kind, name)]); }
      if (kind, name) in db.rows { return Some(db.rows[(kind, name)]); }
      return None;
    }

    method GetVariables(thread: Name) returns (r: Bindings)
      requires Valid()
      ensures r == VariablesOf(Seen(), thread)
    {
      OverlayIsApply(db.Seen(), ops);
      if thread in vars { return vars[thread]; }
      if thread in db.vars { return db.vars[thread]; }
      return map[];
    }

    method NextGeneratedSeq() returns (r: int)
      requires Valid()
      ensures r == Seen().nextSeq
    {
      OverlayIsApply(db.Seen(), ops);
      if nextSeq.Some? { return nextSeq.value; }
      return db.nextSeq;
    }

    /** The committed children with this transaction's decisions replayed over them, in no particular order. */
    method GetChildren(parent: Ref) returns (out: set<Ref>)
      requires Valid()
      ensures out == ChildrenOf(Seen(), parent)
    {
      out := ChildrenOf(db.Seen(), parent);
      var todo := edges.Keys;
      while todo != {}
        invariant todo <= edges.Keys
        invariant forall c :: c in out <==>
          if (parent, c) in edges && (parent, c) !in todo then edges[(parent, c)] else (parent, c) in db.edges
        decreases |todo|
      {
        var e :| e in todo;
        if e.0 == parent {
          if edges[e] { out := out + {e.1}; } else { out := out - {e.1}; }
        }
        todo := todo - {e};
      }
      OverlayIsApply(db.Seen(), ops);
    }

    /** `WorkingState::mint_generated_seq`: read the counter, leave it one higher. */
    method Mint() returns (n: int)
      requires Valid()
      modifies this
      ensures Valid() && n == old(Seen().nextSeq) && ops == old(ops) + [PutNextSeq(n + 1)]
      ensures Seen() == old(Seen()).(nextSeq := n + 1)
    {
      n := NextGeneratedSeq();
      Write(PutNextSeq(n + 1));
    }

    method Commit(watermark: Option<int>)
      requires Valid()
      modifies db
      ensures db.Seen() == Landed(old(db.Seen()), ops)
      ensures db.position == if watermark.Some? then watermark.value else old(db.position)
    {
      db.rows := db.rows + rows;
      db.vars := db.vars + vars;
      LandDecisions();
      if nextSeq.Some? { db.nextSeq := if db.nextSeq < nextSeq.value then nextSeq.value else db.nextSeq; }
      if watermark.Some? { db.position := watermark.value; }
      OverlayIsApply(old(db.Seen()), ops);
    }

    method LandDecisions()
      modifies db`edges
      ensures db.edges == LandEdges(old(db.edges), edges)
    {
      var todo := edges.Keys;
      while todo != {}
        invariant todo <= edges.Keys
        invariant forall e :: e in db.edges <==> if e in edges && e !in todo then edges[e] else e in old(db.edges)
        decreases |todo|
      {
        var e :| e in todo;
        if edges[e] { db.edges := db.edges + {e}; } else { db.edges := db.edges - {e}; }
        todo := todo - {e};
      }
    }
  }
}
