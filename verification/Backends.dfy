/** The typed maps and the key-encoded map hold the same thing: a simulation, and what it makes observably equal. */
module Backends {
  import opened Entries
  import opened Names
  import opened Keys
  import opened Lex
  import opened Overlay
  import opened Paging
  import opened Rocks

  /** Which uid a (kind, name) stands for. Keys leave the uid out, so this is what makes them enough. */
  type Uids = (Kind, Name) -> nat

  function RefTo(uids: Uids, kind: Kind, name: Name): Ref { Ref(kind, name, uids(kind, name)) }

  predicate Proper(uids: Uids, r: Ref) { r.name.Valid() && r == RefTo(uids, r.kind, r.name) }

  predicate ProperOp(uids: Uids, op: Op)
  {
    match op
    case PutRow(_, name, _) => name.Valid()
    case PutVariables(thread, _) => thread.Valid()
    case AddChild(parent, child) => Proper(uids, parent) && Proper(uids, child)
    case RemoveChild(parent, child) => Proper(uids, parent) && Proper(uids, child)
    case PutNextSeq(_) => true
  }

  // ---------- The simulation ----------

  /** The cell the typed maps call for at an address, scalars aside. */
  function CellIn(uids: Uids, v: View, a: Addr): Option<Cell>
  {
    match a
    case Row(kind, name) => if (kind, name) in v.rows then Some(RowCell(v.rows[(kind, name)])) else None
    case Variables(thread) => if thread in v.vars then Some(VariablesCell(v.vars[thread])) else None
    case Edge(pk, pn, ck, cn) =>
      if (RefTo(uids, pk, pn), RefTo(uids, ck, cn)) in v.edges then Some(EdgeCell(RefTo(uids, ck, cn))) else None
    case _ => None
  }

  predicate IsScalar(a: Addr) { a.LastPosition? || a.NextSeq? }

  ghost predicate ProperView(uids: Uids, v: View)
  {
    && (forall id | id in v.rows :: id.1.Valid())
    && (forall n | n in v.vars :: n.Valid())
    && (forall e | e in v.edges :: Proper(uids, e.0) && Proper(uids, e.1))
  }

  ghost predicate CellsAgree(sc: Scope, uids: Uids, kv: Store, v: View)
  {
    forall a: Addr | a.Valid() && !IsScalar(a) :: CellAt(kv, Key(sc, a)) == CellIn(uids, v, a)
  }

  ghost predicate AllAddressed(sc: Scope, kv: Store)
  {
    forall k | k in kv :: exists a: Addr :: a.Valid() && k == Key(sc, a)
  }

  /** Rows, scopes, edges and watermark agree; the counter is stated apart. */
  ghost predicate Same(sc: Scope, uids: Uids, kv: Store, v: View, position: int)
  {
    && CellsAgree(sc, uids, kv, v) && AllAddressed(sc, kv) && ProperView(uids, v)
    && ScalarAt(kv, Key(sc, LastPosition)) == Decoded(position)
  }

  ghost predicate SameCounter(sc: Scope, kv: Store, v: View)
  {
    ScalarAt(kv, Key(sc, NextSeq)) == Decoded(v.nextSeq)
  }

  lemma FreshStoresSame(sc: Scope, uids: Uids)
    ensures Same(sc, uids, map[], View(map[], map[], {}, 0), 0) && SameCounter(sc, map[], View(map[], map[], {}, 0))
  {
  }

  /** A write changes the cell at its own address and, keys being injective, no other. */
  lemma WriteElsewhere(sc: Scope, kv: Store, op: Op, a: Addr)
    requires sc.Valid() && a.Valid() && AddrOf(op).Valid()
    ensures CellAt(Write(sc, kv, op), Key(sc, a)) == if a == AddrOf(op) then CellOf(op) else CellAt(kv, Key(sc, a))
  {
    if Key(sc, a) == Key(sc, AddrOf(op)) { KeyInjective(sc, a, sc, AddrOf(op)); }
  }

  /** On typed maps, likewise. */
  lemma ApplyElsewhere(uids: Uids, v: View, op: Op, a: Addr)
    requires ProperOp(uids, op) && a.Valid() && !IsScalar(a)
    ensures CellIn(uids, Apply(v, op), a) == if a == AddrOf(op) then CellOf(op) else CellIn(uids, v, a)
  {
  }

  lemma WriteKeepsCells(sc: Scope, uids: Uids, kv: Store, v: View, op: Op)
    requires sc.Valid() && ProperOp(uids, op) && CellsAgree(sc, uids, kv, v)
    ensures CellsAgree(sc, uids, Write(sc, kv, op), Apply(v, op))
  {
    var kv', v' := Write(sc, kv, op), Apply(v, op);
    forall a: Addr | a.Valid() && !IsScalar(a) ensures CellAt(kv', Key(sc, a)) == CellIn(uids, v', a) {
      WriteElsewhere(sc, kv, op, a);
      ApplyElsewhere(uids, v, op, a);
    }
  }

  lemma PutKeepsAddressed(sc: Scope, kv: Store, a: Addr, cell: Option<Cell>)
    requires a.Valid() && AllAddressed(sc, kv)
    ensures AllAddressed(sc, Put(kv, Key(sc, a), cell))
  {
    var kv' := Put(kv, Key(sc, a), cell);
    forall k | k in kv' ensures exists b: Addr :: b.Valid() && k == Key(sc, b) {
      if k != Key(sc, a) { assert k in kv; }
    }
  }

  lemma ApplyKeepsProper(uids: Uids, v: View, op: Op)
    requires ProperOp(uids, op) && ProperView(uids, v)
    ensures ProperView(uids, Apply(v, op))
  {
  }

  lemma WriteKeepsPosition(sc: Scope, kv: Store, position: int, op: Op)
    requires sc.Valid() && AddrOf(op).Valid() && ScalarAt(kv, Key(sc, LastPosition)) == Decoded(position)
    ensures ScalarAt(Write(sc, kv, op), Key(sc, LastPosition)) == Decoded(position)
  {
    WriteElsewhere(sc, kv, op, LastPosition);
  }

  lemma WriteKeepsSame(sc: Scope, uids: Uids, kv: Store, v: View, position: int, op: Op)
    requires sc.Valid() && ProperOp(uids, op) && Same(sc, uids, kv, v, position)
    ensures Same(sc, uids, Write(sc, kv, op), Apply(v, op), position)
  {
    WriteKeepsCells(sc, uids, kv, v, op);
    PutKeepsAddressed(sc, kv, AddrOf(op), CellOf(op));
    ApplyKeepsProper(uids, v, op);
    WriteKeepsPosition(sc, kv, position, op);
  }

  /** Inside a transaction: after any operations, the two transactions see the same. */
  lemma {:induction false} TransactionsSame(sc: Scope, uids: Uids, kv: Store, v: View, position: int, ops: seq<Op>)
    requires sc.Valid() && Same(sc, uids, kv, v, position) && forall i | 0 <= i < |ops| :: ProperOp(uids, ops[i])
    ensures Same(sc, uids, WriteAll(sc, kv, ops), ApplyAll(v, ops), position)
    decreases |ops|
  {
    if ops != [] {
      var front := ops[..|ops| - 1];
      TransactionsSame(sc, uids, kv, v, position, front);
      WriteKeepsSame(sc, uids, WriteAll(sc, kv, front), ApplyAll(v, front), position, ops[|ops| - 1]);
    }
  }

  /** The counter a transaction reads: its own last put, or the committed one. */
  lemma {:induction false} CounterAfter(sc: Scope, uids: Uids, kv: Store, v: View, ops: seq<Op>)
    requires sc.Valid() && forall i | 0 <= i < |ops| :: ProperOp(uids, ops[i])
    ensures ScalarAt(WriteAll(sc, kv, ops), Key(sc, NextSeq)) ==
      if PendingSeq(ops).Some? then Decoded(PendingSeq(ops).value) else ScalarAt(kv, Key(sc, NextSeq))
    ensures ApplyAll(v, ops).nextSeq == if PendingSeq(ops).Some? then PendingSeq(ops).value else v.nextSeq
    decreases |ops|
  {
    if ops != [] {
      var front := ops[..|ops| - 1];
      CounterAfter(sc, uids, kv, v, front);
      WriteElsewhere(sc, WriteAll(sc, kv, front), ops[|ops| - 1], NextSeq);
    }
  }

  /** Two transactions read the same counter exactly when they put one or started from the same. */
  lemma TransactionCounters(sc: Scope, uids: Uids, kv: Store, v: View, ops: seq<Op>)
    requires sc.Valid() && forall i | 0 <= i < |ops| :: ProperOp(uids, ops[i])
    ensures SameCounter(sc, WriteAll(sc, kv, ops), ApplyAll(v, ops)) <==>
      PendingSeq(ops).Some? || SameCounter(sc, kv, v)
  {
    CounterAfter(sc, uids, kv, v, ops);
  }

  // ---------- Commits ----------

  function PutPosition(sc: Scope, kv: Store, w: int): Store { kv[Key(sc, LastPosition) := Scalar(w)] }

  /** The key-encoded store after a commit: the counter is overwritten like any other cell. */
  function RocksCommit(sc: Scope, kv: Store, ops: seq<Op>, watermark: Option<int>): Store
  {
    var written := WriteAll(sc, kv, ops);
    if watermark.Some? then PutPosition(sc, written, watermark.value) else written
  }

  function NewPosition(position: int, watermark: Option<int>): int
  {
    if watermark.Some? then watermark.value else position
  }

  lemma WatermarkOnly(sc: Scope, kv: Store, w: int, a: Addr)
    requires sc.Valid() && a.Valid()
    ensures CellAt(kv[Key(sc, LastPosition) := Scalar(w)], Key(sc, a)) ==
      if a == LastPosition then Some(Scalar(w)) else CellAt(kv, Key(sc, a))
  {
    if Key(sc, a) == Key(sc, LastPosition) { KeyInjective(sc, a, sc, LastPosition); }
  }

  lemma WatermarkKeepsSame(sc: Scope, uids: Uids, kv: Store, v: View, position: int, w: int)
    requires sc.Valid() && Same(sc, uids, kv, v, position)
    ensures Same(sc, uids, PutPosition(sc, kv, w), v, w)
    ensures ScalarAt(PutPosition(sc, kv, w), Key(sc, NextSeq)) == ScalarAt(kv, Key(sc, NextSeq))
  {
    var kv' := PutPosition(sc, kv, w);
    forall a: Addr | a.Valid() && !IsScalar(a) ensures CellAt(kv', Key(sc, a)) == CellIn(uids, v, a) {
      WatermarkOnly(sc, kv, w, a);
    }
    WatermarkOnly(sc, kv, w, LastPosition);
    WatermarkOnly(sc, kv, w, NextSeq);
    PutKeepsAddressed(sc, kv, LastPosition, Some(Scalar(w)));
  }

  lemma CounterIgnored(sc: Scope, uids: Uids, kv: Store, v: View, position: int, n: int)
    requires Same(sc, uids, kv, v, position)
    ensures Same(sc, uids, kv, v.(nextSeq := n), position)
  {
    var w := v.(nextSeq := n);
    forall a: Addr | a.Valid() && !IsScalar(a) ensures CellAt(kv, Key(sc, a)) == CellIn(uids, w, a) {
      assert CellIn(uids, w, a) == CellIn(uids, v, a);
    }
  }

  /**
   * One commit lands the same rows, scopes, edges and watermark on both, whatever the counters; and the
   * counters agree afterwards exactly when the transaction put none and they agreed, or it did not lower
   * the typed one, since memory keeps the larger and Rocks the last.
   */
  lemma CommitsSame(sc: Scope, uids: Uids, kv: Store, v: View, position: int, ops: seq<Op>, watermark: Option<int>)
    requires sc.Valid() && Same(sc, uids, kv, v, position) && forall i | 0 <= i < |ops| :: ProperOp(uids, ops[i])
    ensures var kv', v', position' := RocksCommit(sc, kv, ops, watermark), Landed(v, ops),
      NewPosition(position, watermark);
      && Same(sc, uids, kv', v', position')
      && (SameCounter(sc, kv', v') <==>
          if PendingSeq(ops).Some? then v.nextSeq <= PendingSeq(ops).value else SameCounter(sc, kv, v))
  {
    TransactionsSame(sc, uids, kv, v, position, ops);
    CounterAfter(sc, uids, kv, v, ops);
    if watermark.Some? {
      WatermarkKeepsSame(sc, uids, WriteAll(sc, kv, ops), ApplyAll(v, ops), position, watermark.value);
    }
    CounterIgnored(sc, uids, RocksCommit(sc, kv, ops, watermark), ApplyAll(v, ops), NewPosition(position, watermark),
      LandedSeq(v, ops));
    ReadsSurviveCommit(v, ops);
  }

  // ---------- Whole histories ----------

  /** One thing done to a store: a raw write, of a cell or of the watermark, or a transaction committed or dropped. */
  datatype Act =
    | Raw(op: Op)
    | RawPosition(w: int)
    | Committed(ops: seq<Op>, watermark: Option<int>)
    | Dropped(ops: seq<Op>)

  datatype Typed = Typed(view: View, position: int)

  function ActTyped(m: Typed, act: Act): Typed
  {
    match act
    case Raw(op) => Typed(Apply(m.view, op), m.position)
    case RawPosition(w) => m.(position := w)
    case Committed(ops, watermark) => Typed(Landed(m.view, ops), NewPosition(m.position, watermark))
    case Dropped(_) => m
  }

  function ActKeyed(sc: Scope, kv: Store, act: Act): Store
  {
    match act
    case Raw(op) => Write(sc, kv, op)
    case RawPosition(w) => PutPosition(sc, kv, w)
    case Committed(ops, watermark) => RocksCommit(sc, kv, ops, watermark)
    case Dropped(_) => kv
  }

  function HistoryTyped(acts: seq<Act>): Typed
  {
    if acts == [] then Typed(View(map[], map[], {}, 0), 0)
    else ActTyped(HistoryTyped(acts[..|acts| - 1]), acts[|acts| - 1])
  }

  function HistoryKeyed(sc: Scope, acts: seq<Act>): Store
  {
    if acts == [] then map[] else ActKeyed(sc, HistoryKeyed(sc, acts[..|acts| - 1]), acts[|acts| - 1])
  }

  ghost predicate ProperAct(uids: Uids, act: Act)
  {
    match act
    case Raw(op) => ProperOp(uids, op) && !op.PutNextSeq?
    case RawPosition(_) => true
    case Committed(ops, _) => forall i | 0 <= i < |ops| :: ProperOp(uids, ops[i])
    case Dropped(ops) => forall i | 0 <= i < |ops| :: ProperOp(uids, ops[i])
  }

  lemma ActKeepsSame(sc: Scope, uids: Uids, kv: Store, m: Typed, act: Act)
    requires sc.Valid() && ProperAct(uids, act) && Same(sc, uids, kv, m.view, m.position)
    ensures var m' := ActTyped(m, act); Same(sc, uids, ActKeyed(sc, kv, act), m'.view, m'.position)
  {
    match act {
      case Raw(op) => WriteKeepsSame(sc, uids, kv, m.view, m.position, op);
      case RawPosition(w) => WatermarkKeepsSame(sc, uids, kv, m.view, m.position, w);
      case Committed(ops, watermark) => CommitsSame(sc, uids, kv, m.view, m.position, ops, watermark);
      case Dropped(_) =>
    }
  }

  /** After any history at all, the two stores hold the same rows, scopes, edges and watermark. */
  lemma {:induction false} HistoriesSame(sc: Scope, uids: Uids, acts: seq<Act>)
    requires sc.Valid() && forall i | 0 <= i < |acts| :: ProperAct(uids, acts[i])
    ensures var m := HistoryTyped(acts); Same(sc, uids, HistoryKeyed(sc, acts), m.view, m.position)
    decreases |acts|
  {
    if acts != [] {
      var front := acts[..|acts| - 1];
      HistoriesSame(sc, uids, front);
      ActKeepsSame(sc, uids, HistoryKeyed(sc, front), HistoryTyped(front), acts[|acts| - 1]);
    } else {
      FreshStoresSame(sc, uids);
    }
  }

  // ---------- Their counters ----------

  /** The act commits a counter. */
  predicate PutsCounter(act: Act) { act.Committed? && PendingSeq(act.ops).Some? }

  /** The last act of the history that commits a counter did not lower the typed one; or there is none. */
  ghost predicate LastPutRose(acts: seq<Act>)
  {
    if acts == [] then true
    else
      var front, act := acts[..|acts| - 1], acts[|acts| - 1];
      if PutsCounter(act) then HistoryTyped(front).view.nextSeq <= PendingSeq(act.ops).value else LastPutRose(front)
  }

  lemma ActCounters(sc: Scope, uids: Uids, kv: Store, m: Typed, act: Act)
    requires sc.Valid() && ProperAct(uids, act) && Same(sc, uids, kv, m.view, m.position)
    ensures SameCounter(sc, ActKeyed(sc, kv, act), ActTyped(m, act).view) <==>
      if PutsCounter(act) then m.view.nextSeq <= PendingSeq(act.ops).value else SameCounter(sc, kv, m.view)
  {
    match act {
      case Raw(op) => WriteElsewhere(sc, kv, op, NextSeq);
      case RawPosition(w) => WatermarkKeepsSame(sc, uids, kv, m.view, m.position, w);
      case Committed(ops, watermark) => CommitsSame(sc, uids, kv, m.view, m.position, ops, watermark);
      case Dropped(_) =>
    }
  }

  /** After any history, the counters agree exactly when the last commit of one did not lower it. */
  lemma {:induction false} HistoryCounters(sc: Scope, uids: Uids, acts: seq<Act>)
    requires sc.Valid() && forall i | 0 <= i < |acts| :: ProperAct(uids, acts[i])
    ensures SameCounter(sc, HistoryKeyed(sc, acts), HistoryTyped(acts).view) <==> LastPutRose(acts)
    decreases |acts|
  {
    if acts != [] {
      var front := acts[..|acts| - 1];
      HistoriesSame(sc, uids, front);
      HistoryCounters(sc, uids, front);
      ActCounters(sc, uids, HistoryKeyed(sc, front), HistoryTyped(front), acts[|acts| - 1]);
    } else {
      FreshStoresSame(sc, uids);
    }
  }

  // ---------- What a reader observes ----------

  /** Point reads of the two stores agree. */
  lemma PointReadsAgree(sc: Scope, uids: Uids, kv: Store, v: View, position: int, kind: Kind, name: Name)
    requires Same(sc, uids, kv, v, position) && name.Valid()
    ensures RowAt(kv, Key(sc, Addr.Row(kind, name))) == Decoded(RowOf(v, kind, name))
    ensures VariablesAt(kv, Key(sc, Variables(name))) == Decoded(VariablesOf(v, name))
  {
    assert Addr.Row(kind, name).Valid() && Variables(name).Valid();
    assert CellAt(kv, Key(sc, Addr.Row(kind, name))) == CellIn(uids, v, Addr.Row(kind, name));
    assert CellAt(kv, Key(sc, Variables(name))) == CellIn(uids, v, Variables(name));
  }

  /** A prefix scan of a parent's edges returns exactly its children. */
  lemma ChildrenAgree(sc: Scope, uids: Uids, kv: Store, v: View, position: int, parent: Ref)
    requires sc.Valid() && Same(sc, uids, kv, v, position) && Proper(uids, parent)
    ensures ChildrenAt(kv, Under(kv, EdgePrefix(sc, parent.kind, parent.name))) == Decoded(ChildrenOf(v, parent))
  {
    var keys := Under(kv, EdgePrefix(sc, parent.kind, parent.name));
    forall k | k in keys ensures kv[k].EdgeCell? && kv[k].child in ChildrenOf(v, parent) {
      var a: Addr :| a.Valid() && k == Key(sc, a);
      EdgePrefixExact(sc, parent.kind, parent.name, sc, a);
      assert CellAt(kv, k) == CellIn(uids, v, a);
      assert (parent, kv[k].child) in v.edges;
    }
    forall c | c in ChildrenOf(v, parent) ensures c in ChildSet(kv, keys) {
      var a := Edge(parent.kind, parent.name, c.kind, c.name);
      assert (parent, c) in v.edges && a.Valid();
      EdgePrefixExact(sc, parent.kind, parent.name, sc, a);
      assert CellAt(kv, Key(sc, a)) == CellIn(uids, v, a);
      assert Key(sc, a) in keys && kv[Key(sc, a)].child == c;
    }
    assert ChildSet(kv, keys) == ChildrenOf(v, parent);
  }

  /** So in the middle of any two transactions over equal stores: row, scope and child reads agree. */
  lemma TransactionReadsAgree(sc: Scope, uids: Uids, kv: Store, v: View, position: int, ops: seq<Op>, r: Ref)
    requires sc.Valid() && Same(sc, uids, kv, v, position) && Proper(uids, r)
    requires forall i | 0 <= i < |ops| :: ProperOp(uids, ops[i])
    ensures var kv', v' := WriteAll(sc, kv, ops), ApplyAll(v, ops);
      && RowAt(kv', Key(sc, Addr.Row(r.kind, r.name))) == Decoded(RowOf(v', r.kind, r.name))
      && VariablesAt(kv', Key(sc, Variables(r.name))) == Decoded(VariablesOf(v', r.name))
      && ChildrenAt(kv', Under(kv', EdgePrefix(sc, r.kind, r.name))) == Decoded(ChildrenOf(v', r))
  {
    TransactionsSame(sc, uids, kv, v, position, ops);
    PointReadsAgree(sc, uids, WriteAll(sc, kv, ops), ApplyAll(v, ops), position, r.kind, r.name);
    ChildrenAgree(sc, uids, WriteAll(sc, kv, ops), ApplyAll(v, ops), position, r);
  }

  lemma KeyIsPrefixed(sc: Scope, kind: Kind, name: Name)
    ensures Key(sc, Addr.Row(kind, name)) == KindPrefix(sc, kind) + AsStr(name)
  {
    var t, n, k, x := sc.tenant, sc.namespace, Segment(kind), AsStr(name);
    forall y ensures Join([t, n, k, y]) == "/" + t + ("/" + n + ("/" + k + ("/" + y))) {
      assert [t, n, k, y][1..] == [n, k, y] && [n, k, y][1..] == [k, y] && [k, y][1..] == [y] && [y][1..] == [];
      assert Join([y]) == "/" + y;
      assert Join([k, y]) == "/" + k + Join([y]);
      assert Join([n, k, y]) == "/" + n + Join([k, y]);
    }
    assert Segments(sc, Addr.Row(kind, name)) == [t, n, k, x];
  }

  /** Under a kind's prefix lie exactly that kind's names, each with its row. */
  lemma KindAgrees(sc: Scope, uids: Uids, kv: Store, v: View, position: int, kind: Kind)
    requires sc.Valid() && Same(sc, uids, kv, v, position)
    ensures NamesUnder(kv, KindPrefix(sc, kind)) == KindNames(v, kind)
  {
    var prefix := KindPrefix(sc, kind);
    forall k | k in Under(kv, prefix) ensures k[|prefix|..] in KindNames(v, kind) {
      var a: Addr :| a.Valid() && k == Key(sc, a);
      KindPrefixExact(sc, kind, sc, a);
      KeyIsPrefixed(sc, kind, a.name);
      assert CellAt(kv, k) == CellIn(uids, v, a);
    }
    forall id | id in v.rows && id.0 == kind ensures AsStr(id.1) in NamesUnder(kv, prefix) {
      var a := Addr.Row(kind, id.1);
      assert a.Valid();
      KindPrefixExact(sc, kind, sc, a);
      KeyIsPrefixed(sc, kind, id.1);
      assert CellAt(kv, Key(sc, a)) == CellIn(uids, v, a);
      assert Key(sc, a)[|prefix|..] == AsStr(id.1);
    }
  }

  /** The rows the typed store lists under these names. */
  ghost function Rows(v: View, kind: Kind, l: seq<string>): seq<(Name, Cell)>
    requires NamesValid(v) && forall i | 0 <= i < |l| :: l[i] in KindNames(v, kind)
  {
    if l == [] then []
    else
      ParsesBack(v, kind, l[|l| - 1]);
      var name := FromParsed(l[|l| - 1]).value;
      Rows(v, kind, l[..|l| - 1]) + [(name, RowCell(v.rows[(kind, name)]))]
  }

  lemma {:induction false} RowsAgree(sc: Scope, uids: Uids, kv: Store, v: View, position: int, kind: Kind,
                                     l: seq<string>)
    requires sc.Valid() && Same(sc, uids, kv, v, position) && forall i | 0 <= i < |l| :: l[i] in KindNames(v, kind)
    ensures ParseAll(s => RowUnder(kv, KindPrefix(sc, kind), s), l) == Decoded(Rows(v, kind, l))
    decreases |l|
  {
    if l != [] {
      var s := l[|l| - 1];
      RowsAgree(sc, uids, kv, v, position, kind, l[..|l| - 1]);
      ParsesBack(v, kind, s);
      var name := FromParsed(s).value;
      KeyIsPrefixed(sc, kind, name);
      assert CellAt(kv, Key(sc, Addr.Row(kind, name))) == CellIn(uids, v, Addr.Row(kind, name));
      assert RowUnder(kv, KindPrefix(sc, kind), s) == Some((name, RowCell(v.rows[(kind, name)])));
    }
  }

  lemma CutIsStored(v: View, kind: Kind, after: Option<string>, limit: nat)
    ensures forall i | 0 <= i < |Cut(InOrder(v, kind), after, limit)| ::
      Cut(InOrder(v, kind), after, limit)[i] in KindNames(v, kind)
    ensures Cut(InOrder(v, kind), after, limit) == ListKind(v, kind, after, limit) <==>
      limit >= 1 || Above(InOrder(v, kind), after) == []
  {
    var page := Cut(InOrder(v, kind), after, limit);
    forall i | 0 <= i < |page| ensures page[i] in KindNames(v, kind) {
      assert page[i] in Above(InOrder(v, kind), after);
      AboveMember(InOrder(v, kind), after, page[i]);
    }
  }

  /**
   * Listing a kind: the key-encoded scan returns the rows of exactly the names it cuts off the typed
   * listing, and those are the typed store's own page exactly when the page size is not zero or
   * nothing lies above the offset.
   */
  lemma ListingsAgree(sc: Scope, uids: Uids, kv: Store, v: View, position: int, kind: Kind, after: Option<string>,
                      limit: nat)
    requires sc.Valid() && Same(sc, uids, kv, v, position)
    ensures NamesUnder(kv, KindPrefix(sc, kind)) == KindNames(v, kind)
    ensures var page := Cut(InOrder(v, kind), after, limit);
      && (forall i | 0 <= i < |page| :: page[i] in KindNames(v, kind))
      && ParseAll(s => RowUnder(kv, KindPrefix(sc, kind), s), page) == Decoded(Rows(v, kind, page))
      && (page == ListKind(v, kind, after, limit) <==> limit >= 1 || Above(InOrder(v, kind), after) == [])
  {
    KindAgrees(sc, uids, kv, v, position, kind);
    CutIsStored(v, kind, after, limit);
    RowsAgree(sc, uids, kv, v, position, kind, Cut(InOrder(v, kind), after, limit));
  }

  lemma {:induction false} NamesParse(v: View, kind: Kind, l: seq<string>)
    requires NamesValid(v) && forall i | 0 <= i < |l| :: l[i] in KindNames(v, kind)
    ensures ParseAll(FromParsed, l).Decoded?
    decreases |l|
  {
    if l != [] {
      NamesParse(v, kind, l[..|l| - 1]);
      ParsesBack(v, kind, l[|l| - 1]);
    }
  }

  /**
   * Were the iterator not bounded by the prefix: the names the scan returns are those of its page exactly when
   * the page fills inside the kind's range or no stray name past it lies above the offset.
   */
  lemma UnboundedListing(sc: Scope, uids: Uids, kv: Store, v: View, position: int, kind: Kind, after: Option<string>,
                         limit: nat)
    requires sc.Valid() && Same(sc, uids, kv, v, position)
    requires Cuttable(Listing(From(kv, KindPrefix(sc, kind)) - Under(kv, KindPrefix(sc, kind))), KindPrefix(sc, kind))
    ensures var prefix := KindPrefix(sc, kind);
      var l, strays := InOrder(v, kind), Strays(kv, prefix);
      && Listing(NamesUnder(kv, prefix)) == l
      && (ParseAll(FromParsed, Cut(l + strays, after, limit)) == ParseAll(FromParsed, Cut(l, after, limit)) <==>
          (if limit == 0 then 1 else limit) <= |Above(l, after)| || Above(strays, after) == [])
  {
    ListingsAgree(sc, uids, kv, v, position, kind, after, limit);
    NamesParse(v, kind, Cut(InOrder(v, kind), after, limit));
    UnboundedIff(InOrder(v, kind), Strays(kv, KindPrefix(sc, kind)), after, limit);
  }

  // ---------- After any history ----------

  /** Whatever was done to the two stores, their row, scope, child and watermark reads agree. */
  lemma HistoryReadsAgree(sc: Scope, uids: Uids, acts: seq<Act>, r: Ref)
    requires sc.Valid() && Proper(uids, r) && forall i | 0 <= i < |acts| :: ProperAct(uids, acts[i])
    ensures var kv, m := HistoryKeyed(sc, acts), HistoryTyped(acts);
      && RowAt(kv, Key(sc, Addr.Row(r.kind, r.name))) == Decoded(RowOf(m.view, r.kind, r.name))
      && VariablesAt(kv, Key(sc, Variables(r.name))) == Decoded(VariablesOf(m.view, r.name))
      && ChildrenAt(kv, Under(kv, EdgePrefix(sc, r.kind, r.name))) == Decoded(ChildrenOf(m.view, r))
      && ScalarAt(kv, Key(sc, LastPosition)) == Decoded(m.position)
  {
    var kv, m := HistoryKeyed(sc, acts), HistoryTyped(acts);
    HistoriesSame(sc, uids, acts);
    PointReadsAgree(sc, uids, kv, m.view, m.position, r.kind, r.name);
    ChildrenAgree(sc, uids, kv, m.view, m.position, r);
  }

  /** And so do their listings of any kind, from any offset, with any page size but zero. */
  lemma HistoryListingsAgree(sc: Scope, uids: Uids, acts: seq<Act>, kind: Kind, after: Option<string>, limit: nat)
    requires sc.Valid() && limit >= 1 && forall i | 0 <= i < |acts| :: ProperAct(uids, acts[i])
    ensures var kv, v := HistoryKeyed(sc, acts), HistoryTyped(acts).view;
      var page := ListKind(v, kind, after, limit);
      && page == Cut(Listing(NamesUnder(kv, KindPrefix(sc, kind))), after, limit)
      && NamesValid(v) && (forall i | 0 <= i < |page| :: page[i] in KindNames(v, kind))
      && ParseAll(s => RowUnder(kv, KindPrefix(sc, kind), s), page) == Decoded(Rows(v, kind, page))
  {
    HistoriesSame(sc, uids, acts);
    var m := HistoryTyped(acts);
    ListingsAgree(sc, uids, HistoryKeyed(sc, acts), m.view, m.position, kind, after, limit);
  }

  // ---------- Where the two stores differ ----------

  /** A commit that lowers the counter leaves 5 in memory and 3 in Rocks. */
  lemma CountersCanDiffer(sc: Scope, uids: Uids)
    requires sc.Valid()
    ensures var acts := [Committed([PutNextSeq(5)], None), Committed([PutNextSeq(3)], None)];
      && (forall i | 0 <= i < |acts| :: ProperAct(uids, acts[i]))
      && !SameCounter(sc, HistoryKeyed(sc, acts), HistoryTyped(acts).view)
  {
    var acts := [Committed([PutNextSeq(5)], None), Committed([PutNextSeq(3)], None)];
    PutOne(5);
    PutOne(3);
    assert acts[..1] == [acts[0]] && acts[..1][..0] == [];
    assert HistoryTyped(acts[..1]) == ActTyped(HistoryTyped([]), acts[0]);
    assert HistoryTyped(acts[..1]).view.nextSeq == 5;
    HistoryCounters(sc, uids, acts);
  }

  lemma PutOne(n: int)
    ensures PendingSeq([PutNextSeq(n)]) == Some(n)
  {
    assert [PutNextSeq(n)][..0] == [];
  }

  /** One row, and a page of size zero: the scan returns it, the typed listing nothing. */
  lemma ZeroLimitDiffers(kind: Kind, name: Name, row: Row)
    ensures var v := View(map[(kind, name) := row], map[], {}, 0);
      Cut(InOrder(v, kind), None, 0) == [AsStr(name)] && ListKind(v, kind, None, 0) == []
  {
    var v := View(map[(kind, name) := row], map[], {}, 0);
    assert (kind, name) in v.rows && AsStr(name) in KindNames(v, kind);
    assert KindNames(v, kind) == {AsStr(name)};
    assert InOrder(v, kind)[0] == AsStr(name);
  }

  // ---------- Without one uid per name ----------

  /** Two children of one name and different uids: the typed maps keep both edges, the keys only the last. */
  lemma UidsMatter(sc: Scope, parent: Ref, child: Ref, uid: nat)
    requires uid != child.uid
    ensures var other := child.(uid := uid);
      var ops := [AddChild(parent, child), AddChild(parent, other)];
      && ChildrenOf(ApplyAll(View(map[], map[], {}, 0), ops), parent) == {child, other}
      && |WriteAll(sc, map[], ops)| == 1
  {
    var other := child.(uid := uid);
    var ops := [AddChild(parent, child), AddChild(parent, other)];
    var v := View(map[], map[], {}, 0);
    assert ops[..1] == [AddChild(parent, child)] && ops[..1][..0] == [];
    assert ApplyAll(v, ops[..1]) == Apply(v, ops[0]);
    assert ApplyAll(v, ops).edges == {(parent, child), (parent, other)};
    var key := Key(sc, AddrOf(ops[0]));
    assert WriteAll(sc, map[], ops[..1]) == map[key := EdgeCell(child)];
    assert WriteAll(sc, map[], ops) == map[key := EdgeCell(other)];
  }
}
