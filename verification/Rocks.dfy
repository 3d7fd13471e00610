/** The key-encoded store: one ordered map from text keys to cells, its transaction, and its prefix scans. */
module Rocks {
  import opened Entries
  import opened Names
  import opened Keys
  import opened Lex
  import opened Overlay
  import opened Paging

  /** A stored value, already decoded; which sort of cell it is stands for whether a decode succeeds. */
  datatype Cell = RowCell(row: Row) | VariablesCell(bindings: Bindings) | EdgeCell(child: Ref) | Scalar(value: int)

  type Store = map<string, Cell>

  /** A read that may fail to decode. */
  datatype Read<+T> = Decoded(value: T) | Corrupt

  // ---------- Writes ----------

  function AddrOf(op: Op): Addr
  {
    match op
    case PutRow(kind, name, _) => Addr.Row(kind, name)
    case PutVariables(thread, _) => Variables(thread)
    case AddChild(parent, child) => Edge(parent.kind, parent.name, child.kind, child.name)
    case RemoveChild(parent, child) => Edge(parent.kind, parent.name, child.kind, child.name)
    case PutNextSeq(_) => NextSeq
  }

  /** The cell an operation writes, or `None` when it deletes one. */
  function CellOf(op: Op): Option<Cell>
  {
    match op
    case PutRow(_, _, row) => Some(RowCell(row))
    case PutVariables(_, bindings) => Some(VariablesCell(bindings))
    case AddChild(_, child) => Some(EdgeCell(child))
    case RemoveChild(_, _) => None
    case PutNextSeq(seqNo) => Some(Scalar(seqNo))
  }

  function Put(kv: Store, key: string, cell: Option<Cell>): Store
  {
    if cell.Some? then kv[key := cell.value] else kv - {key}
  }

  function Write(sc: Scope, kv: Store, op: Op): Store { Put(kv, Key(sc, AddrOf(op)), CellOf(op)) }

  function WriteAll(sc: Scope, kv: Store, ops: seq<Op>): Store
  {
    if ops == [] then kv else Write(sc, WriteAll(sc, kv, ops[..|ops| - 1]), ops[|ops| - 1])
  }

  // ---------- The transaction's pending writes ----------

  type Pending = map<string, Option<Cell>>

  function PendingOf(sc: Scope, ops: seq<Op>): Pending
  {
    if ops == [] then map[]
    else var op := ops[|ops| - 1]; PendingOf(sc, ops[..|ops| - 1])[Key(sc, AddrOf(op)) := CellOf(op)]
  }

  /** The committed store seen through pending writes. */
  function Merge(kv: Store, pending: Pending): Store
  {
    map k | k in kv.Keys + pending.Keys && (k in pending ==> pending[k].Some?) ::
      if k in pending then pending[k].value else kv[k]
  }

  lemma {:induction false} MergeIsWrite(sc: Scope, kv: Store, ops: seq<Op>)
    ensures Merge(kv, PendingOf(sc, ops)) == WriteAll(sc, kv, ops)
    decreases |ops|
  {
    if ops != [] {
      var front, op := ops[..|ops| - 1], ops[|ops| - 1];
      MergeIsWrite(sc, kv, front);
      MergePut(kv, PendingOf(sc, front), Key(sc, AddrOf(op)), CellOf(op));
    }
  }

  lemma MergePut(kv: Store, pending: Pending, key: string, cell: Option<Cell>)
    ensures Merge(kv, pending[key := cell]) == Put(Merge(kv, pending), key, cell)
  {
  }

  // ---------- Point reads ----------

  function CellAt(kv: Store, key: string): Option<Cell>
  {
    if key in kv then Some(kv[key]) else None
  }

  function RowAt(kv: Store, key: string): Read<Option<Row>>
  {
    match CellAt(kv, key)
    case None => Decoded(None)
    case Some(RowCell(row)) => Decoded(Some(row))
    case Some(_) => Corrupt
  }

  /** An absent scope is an empty one. */
  function VariablesAt(kv: Store, key: string): Read<Bindings>
  {
    match CellAt(kv, key)
    case None => Decoded(map[])
    case Some(VariablesCell(bindings)) => Decoded(bindings)
    case Some(_) => Corrupt
  }

  /** An absent scalar is zero. */
  function ScalarAt(kv: Store, key: string): Read<int>
  {
    match CellAt(kv, key)
    case None => Decoded(0)
    case Some(Scalar(n)) => Decoded(n)
    case Some(_) => Corrupt
  }

  // ---------- Scans ----------

  function From(kv: Store, start: string): set<string> { set k | k in kv && Le(start, k) }

  function Under(kv: Store, prefix: string): set<string> { set k | k in kv && prefix <= k }

  /** Once an ordered scan from `prefix` meets a key outside it, no later key is inside. */
  lemma ScanLeavesOnce(kv: Store, prefix: string, i: nat)
    requires var l := Listing(From(kv, prefix)); i < |l| && !(prefix <= l[i])
    ensures var l := Listing(From(kv, prefix)); forall j | i <= j < |l| :: !(prefix <= l[j])
  {
    var l := Listing(From(kv, prefix));
    forall j | i <= j < |l| ensures !(prefix <= l[j]) {
      if prefix <= l[j] && i < j { PrefixConvex(prefix, l[i], l[j]); }
    }
  }

  /** A guarded scan that stopped at index `i` of the ordered keys has visited exactly those under the prefix. */
  lemma ScanIsUnder(kv: Store, prefix: string, i: nat)
    requires var l := Listing(From(kv, prefix));
      i <= |l| && (forall j | 0 <= j < i :: prefix <= l[j]) && (i < |l| ==> !(prefix <= l[i]))
    ensures FirstKeys(Listing(From(kv, prefix)), i) == Under(kv, prefix)
  {
    var l := Listing(From(kv, prefix));
    if i < |l| { ScanLeavesOnce(kv, prefix, i); }
    forall k | k in Under(kv, prefix) ensures exists j | 0 <= j < i :: l[j] == k {
      PrefixFirst(prefix, k);
      assert k in l;
    }
  }

  /** The children in the cells at `keys`, when every cell there decodes as an edge. */
  ghost function ChildrenAt(kv: Store, keys: set<string>): Read<set<Ref>>
    requires keys <= kv.Keys
  {
    if AllEdges(kv, keys) then Decoded(ChildSet(kv, keys)) else Corrupt
  }

  ghost predicate AllEdges(kv: Store, keys: set<string>)
    requires keys <= kv.Keys
  {
    forall k | k in keys :: kv[k].EdgeCell?
  }

  ghost function ChildSet(kv: Store, keys: set<string>): set<Ref>
    requires keys <= kv.Keys && AllEdges(kv, keys)
  {
    set k | k in keys :: kv[k].child
  }

  ghost function FirstKeys(keys: seq<string>, n: nat): set<string>
    requires n <= |keys|
  {
    set j | 0 <= j < n :: keys[j]
  }

  lemma ReadOneMore(kv: Store, keys: set<string>, k: string, out: set<Ref>)
    requires keys <= kv.Keys && k in kv && ChildrenAt(kv, keys) == Decoded(out)
    ensures ChildrenAt(kv, keys + {k}) == if kv[k].EdgeCell? then Decoded(out + {kv[k].child}) else Corrupt
  {
    if kv[k].EdgeCell? {
      assert ChildSet(kv, keys + {k}) == out + {kv[k].child};
    } else {
      assert k in keys + {k};
    }
  }

  /** The loop of `get_children` over an iterator's keys: decode each one until one leaves the prefix. */
  method ReadEdges(kv: Store, keys: seq<string>, prefix: string) returns (r: Read<set<Ref>>, ghost n: nat)
    requires forall k | k in keys :: k in kv
    ensures n <= |keys| && forall j | 0 <= j < n :: prefix <= keys[j]
    ensures r.Decoded? ==>
      (n < |keys| ==> !(prefix <= keys[n])) && r == ChildrenAt(kv, FirstKeys(keys, n))
    ensures r.Corrupt? ==> exists j | 0 <= j < n :: !kv[keys[j]].EdgeCell?
  {
    var out: set<Ref> := {};
    var i := 0;
    assert FirstKeys(keys, 0) == {} && ChildSet(kv, {}) == {};
    while i < |keys|
      invariant 0 <= i <= |keys|
      invariant forall j | 0 <= j < i :: prefix <= keys[j]
      invariant ChildrenAt(kv, FirstKeys(keys, i)) == Decoded(out)
    {
      if !(prefix <= keys[i]) { break; }
      ReadOneMore(kv, FirstKeys(keys, i), keys[i], out);
      assert FirstKeys(keys, i + 1) == FirstKeys(keys, i) + {keys[i]};
      match kv[keys[i]] {
        case EdgeCell(child) => out := out + {child};
        case _ => return Corrupt, i + 1;
      }
      i := i + 1;
    }
    r, n := Decoded(out), i;
  }

  /** `get_children`: from the parent's prefix forward, reading exactly the cells whose key starts with it. */
  method ScanChildren(kv: Store, prefix: string) returns (r: Read<set<Ref>>)
    ensures r == ChildrenAt(kv, Under(kv, prefix))
  {
    var keys := Listing(From(kv, prefix));
    ghost var n: nat;
    r, n := ReadEdges(kv, keys, prefix);
    if r.Decoded? {
      ScanIsUnder(kv, prefix, n);
    } else {
      ghost var j :| 0 <= j < n && !kv[keys[j]].EdgeCell?;
      assert keys[j] in Under(kv, prefix);
    }
  }

  // ---------- Listing a kind ----------

  /** The names left of each key once the prefix is cut off. */
  function Suffixes(keys: seq<string>, prefix: string): seq<string>
    requires forall i | 0 <= i < |keys| :: prefix <= keys[i]
  {
    seq(|keys|, i requires 0 <= i < |keys| => keys[i][|prefix|..])
  }

  /** Each string read as what it names, unless one of them is no name. */
  function ParseAll<T>(parse: string -> Option<T>, l: seq<string>): Read<seq<T>>
  {
    if l == [] then Decoded([])
    else
      match ParseAll(parse, l[..|l| - 1])
      case Corrupt => Corrupt
      case Decoded(front) =>
        var last := parse(l[|l| - 1]);
        if last.Some? then Decoded(front + [last.value]) else Corrupt
  }

  lemma {:induction false} AboveConcat(a: seq<string>, b: seq<string>, after: Option<string>)
    ensures Above(a + b, after) == Above(a, after) + Above(b, after)
  {
    if a == [] {
      assert a + b == b;
    } else {
      assert (a + b)[1..] == a[1..] + b;
      AboveConcat(a[1..], b, after);
    }
  }

  lemma {:induction false} StaysCorrupt<T>(parse: string -> Option<T>, l: seq<string>, longer: seq<string>)
    requires ParseAll(parse, l).Corrupt? && l <= longer
    ensures ParseAll(parse, longer).Corrupt?
    decreases |longer|
  {
    if l != longer {
      assert l <= longer[..|longer| - 1];
      StaysCorrupt(parse, l, longer[..|longer| - 1]);
    }
  }

  /** The page a scan cuts: the offset is strict, and at least one row is taken when there is one. */
  function Cut(l: seq<string>, after: Option<string>, limit: nat): seq<string>
  {
    Take(Above(l, after), if limit == 0 then 1 else limit)
  }

  lemma AboveStep(l: seq<string>, i: nat, after: Option<string>)
    requires i < |l|
    ensures Above(l[..i + 1], after) ==
      if after.Some? && Le(l[i], after.value) then Above(l[..i], after) else Above(l[..i], after) + [l[i]]
  {
    assert l[..i + 1] == l[..i] + [l[i]] && [l[i]][1..] == [];
    AboveConcat(l[..i], [l[i]], after);
  }

  /** What the first `i` names contribute is where the page starts, until it is full. */
  lemma CutStarts(l: seq<string>, i: nat, after: Option<string>, limit: nat)
    requires i <= |l|
    ensures var seen, full := Above(l[..i], after), if limit == 0 then 1 else limit;
      && (|seen| <= full ==> seen <= Cut(l, after, limit))
      && (|seen| == full || (|seen| < full && i == |l|) ==> seen == Cut(l, after, limit))
  {
    assert l == l[..i] + l[i..];
    AboveConcat(l[..i], l[i..], after);
    assert i == |l| ==> l[..i] == l;
  }

  lemma ParseNext<T>(parse: string -> Option<T>, l: seq<string>, s: string)
    requires ParseAll(parse, l).Decoded?
    ensures ParseAll(parse, l + [s]) ==
      if parse(s).Some? then Decoded(ParseAll(parse, l).value + [parse(s).value]) else Corrupt
  {
    assert (l + [s])[..|l|] == l;
  }

  /** The loop of `list_kind` over the names of a kind: skip up to the offset, collect, stop at the page size. */
  method ReadNames<T>(parse: string -> Option<T>, l: seq<string>, after: Option<string>, limit: nat)
    returns (r: Read<seq<T>>)
    ensures r == ParseAll(parse, Cut(l, after, limit))
  {
    var out: seq<T> := [];
    for i := 0 to |l|
      invariant ParseAll(parse, Above(l[..i], after)) == Decoded(out)
      invariant |out| == |Above(l[..i], after)| && (out == [] || |out| < limit)
    {
      AboveStep(l, i, after);
      if !(after.Some? && Le(l[i], after.value)) {
        ParseNext(parse, Above(l[..i], after), l[i]);
        CutStarts(l, i + 1, after, limit);
        var name := parse(l[i]);
        if name.None? {
          StaysCorrupt(parse, Above(l[..i + 1], after), Cut(l, after, limit));
          return Corrupt;
        }
        out := out + [name.value];
        if |out| >= limit { return Decoded(out); }
      }
    }
    CutStarts(l, |l|, after, limit);
    r := Decoded(out);
  }

  /** One listed row: the name parsed off its key, and its raw cell. */
  function RowUnder(kv: Store, prefix: string, s: string): Option<(Name, Cell)>
  {
    if FromParsed(s).Some? && prefix + s in kv then Some((FromParsed(s).value, kv[prefix + s])) else None
  }

  /** The names under a prefix. */
  function NamesUnder(kv: Store, prefix: string): set<string> { set k | k in Under(kv, prefix) :: k[|prefix|..] }

  /** Cutting a common prefix off an ordered listing leaves an ordered listing. */
  lemma SuffixesList(kv: Store, prefix: string)
    ensures var keys := Listing(Under(kv, prefix));
      && (forall i | 0 <= i < |keys| :: prefix <= keys[i])
      && Suffixes(keys, prefix) == Listing(NamesUnder(kv, prefix))
  {
    var keys := Listing(Under(kv, prefix));
    var names := Suffixes(keys, prefix);
    forall i, j | 0 <= i < j < |names| ensures Le(names[i], names[j]) && names[i] != names[j] {
      assert keys[i] == prefix + names[i] && keys[j] == prefix + names[j];
      LeUnder(prefix, names[i], names[j]);
    }
    forall s | s in NamesUnder(kv, prefix) ensures s in names {
      var k :| k in Under(kv, prefix) && k[|prefix|..] == s;
      var i :| 0 <= i < |keys| && keys[i] == k;
      assert names[i] == s;
    }
    ListingUnique(names, Listing(NamesUnder(kv, prefix)), NamesUnder(kv, prefix));
  }

  /** `list_kind`: one kind's rows in name order, strictly after the offset, at most a page of them. */
  method ScanKind(kv: Store, prefix: string, after: Option<Name>, limit: nat) returns (r: Read<seq<(Name, Cell)>>)
    ensures var from := if after.Some? then Some(AsStr(after.value)) else None;
      r == ParseAll(s => RowUnder(kv, prefix, s), Cut(Listing(NamesUnder(kv, prefix)), from, limit))
  {
    SuffixesList(kv, prefix);
    var names := Suffixes(Listing(Under(kv, prefix)), prefix);
    r := ReadNames(s => RowUnder(kv, prefix, s), names, if after.Some? then Some(AsStr(after.value)) else None, limit);
  }

  // ---------- The same loop without a bound on its iterator ----------

  /** In the order of the keys from a prefix on, those under it come first. */
  lemma UnderComesFirst(kv: Store, prefix: string)
    ensures Listing(From(kv, prefix)) == Listing(Under(kv, prefix)) + Listing(From(kv, prefix) - Under(kv, prefix))
  {
    var inside, outside := Under(kv, prefix), From(kv, prefix) - Under(kv, prefix);
    var l, m := Listing(inside), Listing(outside);
    forall k | k in inside ensures k in From(kv, prefix) { PrefixFirst(prefix, k); }
    forall i, j | 0 <= i < |l| && 0 <= j < |m| ensures Le(l[i], m[j]) && l[i] != m[j] {
      LeTotal(l[i], m[j]);
      if Le(m[j], l[i]) { PrefixConvex(prefix, m[j], l[i]); }
    }
    ListsConcat(l, m, inside, outside);
    assert inside + outside == From(kv, prefix);
    ListingUnique(Listing(From(kv, prefix)), l + m, From(kv, prefix));
  }

  /**
   * Every key the iterator gives is long enough to cut the prefix's length off it; the loop panics on one that
   * is not.
   */
  predicate Cuttable(keys: seq<string>, prefix: string) { forall i | 0 <= i < |keys| :: |prefix| <= |keys[i]| }

  function CutAll(keys: seq<string>, prefix: string): seq<string>
    requires Cuttable(keys, prefix)
  {
    seq(|keys|, i requires 0 <= i < |keys| => keys[i][|prefix|..])
  }

  /** The names past the kind's range that the loop would take for the kind's, cut at the prefix's length. */
  function Strays(kv: Store, prefix: string): seq<string>
    requires Cuttable(Listing(From(kv, prefix) - Under(kv, prefix)), prefix)
  {
    CutAll(Listing(From(kv, prefix) - Under(kv, prefix)), prefix)
  }

  /** `list_kind` over an iterator that starts at the prefix and has no end of its own: the names it returns. */
  method ScanUnbounded(kv: Store, prefix: string, after: Option<string>, limit: nat) returns (r: Read<seq<Name>>)
    requires Cuttable(Listing(From(kv, prefix) - Under(kv, prefix)), prefix)
    ensures r == ParseAll(FromParsed, Cut(Listing(NamesUnder(kv, prefix)) + Strays(kv, prefix), after, limit))
  {
    UnboundedNames(kv, prefix);
    r := ReadNames(FromParsed, CutAll(Listing(From(kv, prefix)), prefix), after, limit);
  }

  lemma CutConcat(a: seq<string>, b: seq<string>, prefix: string)
    requires Cuttable(a, prefix) && Cuttable(b, prefix)
    ensures Cuttable(a + b, prefix) && CutAll(a + b, prefix) == CutAll(a, prefix) + CutAll(b, prefix)
  {
  }

  lemma UnboundedNames(kv: Store, prefix: string)
    requires Cuttable(Listing(From(kv, prefix) - Under(kv, prefix)), prefix)
    ensures Cuttable(Listing(From(kv, prefix)), prefix)
    ensures CutAll(Listing(From(kv, prefix)), prefix) == Listing(NamesUnder(kv, prefix)) + Strays(kv, prefix)
  {
    UnderComesFirst(kv, prefix);
    SuffixesList(kv, prefix);
    CutIsSuffixes(Listing(Under(kv, prefix)), prefix);
    CutConcat(Listing(Under(kv, prefix)), Listing(From(kv, prefix) - Under(kv, prefix)), prefix);
  }

  lemma CutIsSuffixes(keys: seq<string>, prefix: string)
    requires forall i | 0 <= i < |keys| :: prefix <= keys[i]
    ensures Cuttable(keys, prefix) && CutAll(keys, prefix) == Suffixes(keys, prefix)
  {
  }

  lemma {:induction false} ParseAllLength<T>(parse: string -> Option<T>, l: seq<string>)
    ensures ParseAll(parse, l).Decoded? ==> |ParseAll(parse, l).value| == |l|
    decreases |l|
  {
    if l != [] { ParseAllLength(parse, l[..|l| - 1]); }
  }

  /**
   * Without a bound the loop still returns the kind's page exactly when the page fills inside the kind's range,
   * or no stray name past it lies above the offset.
   */
  lemma UnboundedIff(l: seq<string>, strays: seq<string>, after: Option<string>, limit: nat)
    requires ParseAll(FromParsed, Cut(l, after, limit)).Decoded?
    ensures ParseAll(FromParsed, Cut(l + strays, after, limit)) == ParseAll(FromParsed, Cut(l, after, limit)) <==>
      (if limit == 0 then 1 else limit) <= |Above(l, after)| || Above(strays, after) == []
  {
    AboveConcat(l, strays, after);
    ParseAllLength(FromParsed, Cut(l, after, limit));
    ParseAllLength(FromParsed, Cut(l + strays, after, limit));
    if (if limit == 0 then 1 else limit) <= |Above(l, after)| || Above(strays, after) == [] {
      assert Cut(l + strays, after, limit) == Cut(l, after, limit);
    } else {
      assert |Cut(l + strays, after, limit)| > |Cut(l, after, limit)|;
    }
  }

  // ---------- The store and its transaction ----------

  class RocksDb {
    const scope: Scope
    var kv: Store

    constructor (scope: Scope)
      ensures this.scope == scope && kv == map[]
    {
      this.scope := scope;
      kv := map[];
    }
  }

  class RocksTxn {
    const db: RocksDb
    var pending: Pending
    ghost var ops: seq<Op>

    ghost predicate Valid()
      reads this
    {
      pending == PendingOf(db.scope, ops)
    }

    /** The store with this transaction's operations written in order. */
    ghost function Seen(): Store
      reads this, db
    {
      WriteAll(db.scope, db.kv, ops)
    }

    constructor (db: RocksDb)
      ensures Valid() && this.db == db && ops == []
    {
      this.db := db;
      pending := map[];
      ops := [];
    }

    method Buffer(op: Op)
      requires Valid()
      modifies this
      ensures Valid() && ops == old(ops) + [op] && Seen() == Write(db.scope, old(Seen()), op)
    {
      pending := pending[Key(db.scope, AddrOf(op)) := CellOf(op)];
      ops := ops + [op];
      assert ops[..|ops| - 1] == old(ops);
    }

    method Get(key: string) returns (r: Option<Cell>)
      requires Valid()
      ensures r == CellAt(Seen(), key)
    {
      MergeIsWrite(db.scope, db.kv, ops);
      if key in pending { return pending[key]; }
      return CellAt(db.kv, key);
    }

    method GetRow(kind: Kind, name: Name) returns (r: Read<Option<Row>>)
      requires Valid()
      ensures r == RowAt(Seen(), Key(db.scope, Addr.Row(kind, name)))
    {
      var cell := Get(Key(db.scope, Addr.Row(kind, name)));
      match cell {
        case None => return Decoded(None);
        case Some(RowCell(row)) => return Decoded(Some(row));
        case Some(_) => return Corrupt;
      }
    }

    method GetVariables(thread: Name) returns (r: Read<Bindings>)
      requires Valid()
      ensures r == VariablesAt(Seen(), Key(db.scope, Variables(thread)))
    {
      var cell := Get(Key(db.scope, Variables(thread)));
      match cell {
        case None => return Decoded(map[]);
        case Some(VariablesCell(bindings)) => return Decoded(bindings);
        case Some(_) => return Corrupt;
      }
    }

    method GetChildren(kind: Kind, parent: Name) returns (r: Read<set<Ref>>)
      requires Valid()
      ensures r == ChildrenAt(Seen(), Under(Seen(), EdgePrefix(db.scope, kind, parent)))
    {
      MergeIsWrite(db.scope, db.kv, ops);
      r := ScanChildren(Merge(db.kv, pending), EdgePrefix(db.scope, kind, parent));
    }

    method Commit(watermark: Option<int>)
      requires Valid()
      modifies db
      ensures db.kv == (if watermark.Some?
                        then old(Seen())[Key(db.scope, LastPosition) := Scalar(watermark.value)]
                        else old(Seen()))
    {
      MergeIsWrite(db.scope, db.kv, ops);
      var all := pending;
      if watermark.Some? { all := all[Key(db.scope, LastPosition) := Some(Scalar(watermark.value))]; }
      var cell := if watermark.Some? then Some(Scalar(watermark.value)) else None;
      MergePut(db.kv, pending, Key(db.scope, LastPosition), cell);
      db.kv := Merge(db.kv, all);
    }
  }
}
