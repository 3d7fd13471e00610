/** What a store holds after a history: the operations that landed, applied in order. */
module Histories {
  import opened Entries
  import opened Names
  import opened Keys
  import opened Overlay
  import opened Rocks
  import opened Backends

  const EMPTY := View(map[], map[], {}, 0)

  /** The operations that reach the store: raw writes and those of committed transactions, never of dropped ones. */
  function Landing(acts: seq<Act>): seq<Op>
  {
    if acts == [] then []
    else
      Landing(acts[..|acts| - 1]) +
      match acts[|acts| - 1]
      case Raw(op) => [op]
      case Committed(ops, _) => ops
      case _ => []
  }

  lemma {:induction false} ApplyConcat(v: View, a: seq<Op>, b: seq<Op>)
    ensures ApplyAll(v, a + b) == ApplyAll(ApplyAll(v, a), b)
    decreases |b|
  {
    if b == [] {
      assert a + b == a;
    } else {
      assert (a + b)[..|a + b| - 1] == a + b[..|b| - 1];
      ApplyConcat(v, a, b[..|b| - 1]);
    }
  }

  /** The counter aside. */
  function Uncounted(v: View): View { v.(nextSeq := 0) }

  lemma {:induction false} ApplyUncounted(v: View, u: View, ops: seq<Op>)
    requires Uncounted(v) == Uncounted(u)
    ensures Uncounted(ApplyAll(v, ops)) == Uncounted(ApplyAll(u, ops))
    decreases |ops|
  {
    if ops != [] { ApplyUncounted(v, u, ops[..|ops| - 1]); }
  }

  /** A history of raw writes and of transactions committed or dropped is the operations that landed, in order. */
  lemma {:induction false} HistoryIsOps(acts: seq<Act>)
    ensures Uncounted(HistoryTyped(acts).view) == Uncounted(ApplyAll(EMPTY, Landing(acts)))
    decreases |acts|
  {
    if acts != [] {
      var front, act := acts[..|acts| - 1], acts[|acts| - 1];
      var v, u := HistoryTyped(front).view, ApplyAll(EMPTY, Landing(front));
      HistoryIsOps(front);
      match act {
        case Raw(op) =>
          ApplyUncounted(v, u, [op]);
          ApplyConcat(EMPTY, Landing(front), [op]);
          ApplyOne(v, op);
        case Committed(ops, _) =>
          ApplyUncounted(v, u, ops);
          ApplyConcat(EMPTY, Landing(front), ops);
          ReadsSurviveCommit(v, ops);
        case _ => assert Landing(front) + [] == Landing(front);
      }
    }
  }

  lemma ApplyOne(v: View, op: Op)
    ensures ApplyAll(v, [op]) == Apply(v, op)
  {
    assert [op][..0] == [];
  }

  /** The row read after a history, in either store, is the last one a landed operation put there; with none, none. */
  lemma RowIsLastPut(sc: Scope, uids: Uids, acts: seq<Act>, r: Ref, i: int)
    requires sc.Valid() && Proper(uids, r) && forall i | 0 <= i < |acts| :: ProperAct(uids, acts[i])
    requires var ops := Landing(acts);
      && -1 <= i < |ops| && (i >= 0 ==> PutsRow(ops[i], (r.kind, r.name)))
      && forall j | i < j < |ops| :: !PutsRow(ops[j], (r.kind, r.name))
    ensures var row := if i < 0 then None else Some(Landing(acts)[i].row);
      && RowOf(HistoryTyped(acts).view, r.kind, r.name) == row
      && RowAt(HistoryKeyed(sc, acts), Key(sc, Addr.Row(r.kind, r.name))) == Decoded(row)
  {
    HistoryReadsAgree(sc, uids, acts, r);
    HistoryIsOps(acts);
    LastRowWins(EMPTY, Landing(acts), (r.kind, r.name), i);
  }

  /** And the scope of a thread. */
  lemma ScopeIsLastPut(sc: Scope, uids: Uids, acts: seq<Act>, r: Ref, i: int)
    requires sc.Valid() && Proper(uids, r) && forall i | 0 <= i < |acts| :: ProperAct(uids, acts[i])
    requires var ops := Landing(acts);
      && -1 <= i < |ops| && (i >= 0 ==> PutsScope(ops[i], r.name))
      && forall j | i < j < |ops| :: !PutsScope(ops[j], r.name)
    ensures var bindings := if i < 0 then map[] else Landing(acts)[i].bindings;
      && VariablesOf(HistoryTyped(acts).view, r.name) == bindings
      && VariablesAt(HistoryKeyed(sc, acts), Key(sc, Variables(r.name))) == Decoded(bindings)
  {
    HistoryReadsAgree(sc, uids, acts, r);
    HistoryIsOps(acts);
    LastScopeWins(EMPTY, Landing(acts), r.name, i);
  }

  /** And whether an edge is there: the last landed operation about it added it. */
  lemma EdgeIsLastDecision(acts: seq<Act>, parent: Ref, child: Ref)
    ensures child in ChildrenOf(HistoryTyped(acts).view, parent) <==>
      exists i :: LastAdds(Landing(acts), (parent, child), i)
  {
    var ops, e := Landing(acts), (parent, child);
    HistoryIsOps(acts);
    LastDecisionWins(EMPTY, ops, e);
    assert child in ChildrenOf(HistoryTyped(acts).view, parent) <==> e in HistoryTyped(acts).view.edges;
    if e in ApplyAll(EMPTY, ops).edges {
      var i := LastMention(ops, e);
      assert LastAdds(ops, e, i);
    }
  }

  ghost predicate LastAdds(ops: seq<Op>, e: Pair, i: int)
  {
    0 <= i < |ops| && ops[i] == AddChild(e.0, e.1) && forall j | i < j < |ops| :: !Mentions(ops[j], e)
  }

  lemma LastMention(ops: seq<Op>, e: Pair) returns (i: int)
    requires exists i | 0 <= i < |ops| :: Mentions(ops[i], e)
    ensures 0 <= i < |ops| && Mentions(ops[i], e) && forall j | i < j < |ops| :: !Mentions(ops[j], e)
  {
    i := |ops| - 1;
    while !Mentions(ops[i], e)
      invariant 0 <= i < |ops| && forall j | i < j < |ops| :: !Mentions(ops[j], e)
      decreases i
    {
      var k :| 0 <= k < |ops| && Mentions(ops[k], e);
      assert k < i;
      i := i - 1;
    }
  }

  /** The act leaves this watermark. */
  predicate Marks(act: Act, w: int) { act == RawPosition(w) || (act.Committed? && act.watermark == Some(w)) }

  predicate Unmarked(act: Act) { !act.RawPosition? && (act.Committed? ==> act.watermark.None?) }

  /** The watermark read after a history is the last one left, or zero. */
  lemma {:induction false} PositionIsLastMark(acts: seq<Act>)
    ensures (forall i | 0 <= i < |acts| :: Unmarked(acts[i])) ==> HistoryTyped(acts).position == 0
    ensures forall i, w | 0 <= i < |acts| && Marks(acts[i], w) && (forall j | i < j < |acts| :: Unmarked(acts[j])) ::
      HistoryTyped(acts).position == w
    decreases |acts|
  {
    if acts != [] { PositionIsLastMark(acts[..|acts| - 1]); }
  }
}
