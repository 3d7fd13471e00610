/** The log kept under big-endian keys in an ordered byte map: it refines the dense log, and tails like it. */
module DurableLog {
  import opened Entries
  import opened Lex
  import opened Logs

  // Bytes are characters with codes below 256, so keys are ordered as text keys are.

  // ---------- Big-endian keys ----------

  function Pow256(w: nat): (p: nat)
    ensures p >= 1
  {
    if w == 0 then 1 else 256 * Pow256(w - 1)
  }

  function BigEndian(n: nat, w: nat): (s: string)
    ensures |s| == w
  {
    if w == 0 then "" else BigEndian(n / 256, w - 1) + [(n % 256) as char]
  }

  lemma {:induction false} LeSnoc(a: string, x: char, b: string, y: char)
    requires |a| == |b|
    ensures Le(a + [x], b + [y]) <==> if a == b then x <= y else Le(a, b)
  {
    if a == "" {
      assert a + [x] == [x] && b + [y] == [y] && [x][1..] == "" && [y][1..] == "";
    } else {
      assert (a + [x])[1..] == a[1..] + [x] && (b + [y])[1..] == b[1..] + [y];
      LeSnoc(a[1..], x, b[1..], y);
      assert a == [a[0]] + a[1..] && b == [b[0]] + b[1..];
    }
  }

  /** Big-endian words of one width compare as the numbers they spell. */
  lemma {:induction false} BigEndianOrder(m: nat, n: nat, w: nat)
    requires m < Pow256(w) && n < Pow256(w)
    ensures Le(BigEndian(m, w), BigEndian(n, w)) <==> m <= n
    ensures BigEndian(m, w) == BigEndian(n, w) <==> m == n
  {
    if w > 0 {
      var a, b := BigEndian(m / 256, w - 1), BigEndian(n / 256, w - 1);
      BigEndianOrder(m / 256, n / 256, w - 1);
      LeSnoc(a, (m % 256) as char, b, (n % 256) as char);
      assert BigEndian(m, w)[..w - 1] == a && BigEndian(n, w)[..w - 1] == b;
      assert BigEndian(m, w)[w - 1] == (m % 256) as char && BigEndian(n, w)[w - 1] == (n % 256) as char;
    }
  }

  predicate IsI64(p: int) { -I64_MAX - 1 <= p <= I64_MAX }

  /** The two's-complement word of a position. */
  function Word(p: int): nat
    requires IsI64(p)
  {
    if p >= 0 then p else TWO_TO_64 + p
  }

  const ENTRY_PREFIX: char := 0 as char
  const META_NEXT_ID: string := [0xFE as char]

  function EntryKey(p: int): (k: string)
    requires IsI64(p)
    ensures |k| == 9 && k[0] == ENTRY_PREFIX
  {
    [ENTRY_PREFIX] + BigEndian(Word(p), 8)
  }

  lemma WordFits(p: int)
    requires IsI64(p)
    ensures Word(p) < Pow256(8)
  {
    assert Pow256(2) == 0x1_0000 && Pow256(4) == 0x1_0000_0000;
    assert Pow256(6) == 0x1_0000_0000_0000 && Pow256(8) == TWO_TO_64;
  }

  /** Keys order as positions do, negative positions coming after all others. */
  lemma KeyOrder(p: int, q: int)
    requires IsI64(p) && IsI64(q)
    ensures Le(EntryKey(p), EntryKey(q)) <==> if (p < 0) == (q < 0) then p <= q else q < 0
    ensures EntryKey(p) == EntryKey(q) <==> p == q
  {
    WordFits(p);
    WordFits(q);
    BigEndianOrder(Word(p), Word(q), 8);
    LeUnder([ENTRY_PREFIX], BigEndian(Word(p), 8), BigEndian(Word(q), 8));
    assert EntryKey(p)[1..] == BigEndian(Word(p), 8) && EntryKey(q)[1..] == BigEndian(Word(q), 8);
  }

  lemma EntriesBeforeMeta(p: int)
    requires IsI64(p)
    ensures Le(EntryKey(p), META_NEXT_ID) && EntryKey(p) != META_NEXT_ID
  {
  }

  // ---------- The store holds the dense log ----------

  datatype Stored = EntryCell(entry: Entry) | NextCell(next: int)

  type Db = map<string, Stored>

  ghost predicate EntriesAt(db: Db, entries: seq<Entry>)
  {
    && |entries| < I64_MAX
    && (forall p | 1 <= p <= |entries| :: EntryKey(p) in db && db[EntryKey(p)] == EntryCell(entries[p - 1]))
  }

  /** Exactly the log's entries are under entry keys, each at its own position. */
  ghost predicate HoldsEntries(db: Db, entries: seq<Entry>)
  {
    && EntriesAt(db, entries)
    && (forall k | k in db :: k == META_NEXT_ID || exists p :: 1 <= p <= |entries| && k == EntryKey(p))
  }

  /** The persisted next position: where an open of this store would continue. */
  function PersistedNext(db: Db): int
  {
    if META_NEXT_ID in db && db[META_NEXT_ID].NextCell? then db[META_NEXT_ID].next else 1
  }

  ghost predicate Holds(db: Db, entries: seq<Entry>)
  {
    && HoldsEntries(db, entries)
    && PersistedNext(db) == |entries| + 1
    && (META_NEXT_ID in db ==> db[META_NEXT_ID].NextCell?)
  }

  lemma PutEntry(db: Db, entries: seq<Entry>, entry: Entry)
    requires HoldsEntries(db, entries) && |entries| + 1 < I64_MAX
    ensures HoldsEntries(db[EntryKey(|entries| + 1) := EntryCell(entry)], entries + [entry])
  {
    var n := |entries| + 1;
    var db' := db[EntryKey(n) := EntryCell(entry)];
    forall p | 1 <= p <= n ensures EntryKey(p) in db' && db'[EntryKey(p)] == EntryCell((entries + [entry])[p - 1]) {
      KeyOrder(p, n);
    }
    forall k | k in db' && k != META_NEXT_ID ensures exists p :: 1 <= p <= n && k == EntryKey(p) {
      if k != EntryKey(n) {
        var p :| 1 <= p <= |entries| && k == EntryKey(p);
        assert p <= n;
      }
    }
  }

  lemma PutNext(db: Db, entries: seq<Entry>)
    requires HoldsEntries(db, entries)
    ensures Holds(db[META_NEXT_ID := NextCell(|entries| + 1)], entries)
  {
    forall p | 1 <= p <= |entries| ensures EntryKey(p) != META_NEXT_ID { EntriesBeforeMeta(p); }
  }

  // ---------- Tailing ----------

  /** What a sweep from `next` finds committed. */
  function SweepOf(entries: seq<Entry>, next: int): seq<Entry>
  {
    if next < 0 || next > |entries| then [] else if next == 0 then entries else entries[next - 1..]
  }

  /** The position a sweep from `next` starts yielding at. */
  function FirstOf(n: nat, next: int): nat
  {
    if next < 0 || next > n then n + 1 else if next == 0 then 1 else next
  }

  function KeysFrom(first: nat, n: nat): seq<string>
    requires 1 <= first && n <= I64_MAX
  {
    if first > n then [] else seq(n + 1 - first, i requires 0 <= i < n + 1 - first => EntryKey(first + i))
  }

  lemma KeysFromOrdered(first: nat, n: nat, tail: seq<string>)
    requires 1 <= first && n <= I64_MAX && (tail == [] || tail == [META_NEXT_ID])
    ensures Ordered(KeysFrom(first, n) + tail)
  {
    var l := KeysFrom(first, n);
    var all := l + tail;
    forall i, j | 0 <= i < j < |all| ensures Le(all[i], all[j]) && all[i] != all[j] {
      if j < |l| { KeyOrder(first + i, first + j); } else { EntriesBeforeMeta(first + i); }
    }
  }

  ghost function Scanned(db: Db, next: int): set<string>
    requires IsI64(next)
  {
    set k | k in db && Le(EntryKey(next), k)
  }

  lemma InScan(db: Db, entries: seq<Entry>, next: int, p: nat)
    requires Holds(db, entries) && IsI64(next) && 1 <= p <= |entries|
    ensures EntryKey(p) in Scanned(db, next) <==> FirstOf(|entries|, next) <= p
  {
    KeyOrder(next, p);
  }

  ghost function MetaTail(db: Db): seq<string> { if META_NEXT_ID in db then [META_NEXT_ID] else [] }

  lemma ScanCovered(db: Db, entries: seq<Entry>, next: int, k: string)
    requires Holds(db, entries) && IsI64(next) && k in Scanned(db, next)
    ensures k in KeysFrom(FirstOf(|entries|, next), |entries|) + MetaTail(db)
  {
    var l := KeysFrom(FirstOf(|entries|, next), |entries|);
    if k == META_NEXT_ID {
      assert (l + MetaTail(db))[|l|] == k;
    } else {
      var p :| 1 <= p <= |entries| && k == EntryKey(p);
      InScan(db, entries, next, p);
      assert l[p - FirstOf(|entries|, next)] == k;
      assert k in l;
    }
  }

  lemma ScanIsListed(db: Db, entries: seq<Entry>, next: int)
    requires Holds(db, entries) && IsI64(next)
    ensures Lists(KeysFrom(FirstOf(|entries|, next), |entries|) + MetaTail(db), Scanned(db, next))
  {
    var first := FirstOf(|entries|, next);
    var l := KeysFrom(first, |entries|);
    var all, keys := l + MetaTail(db), Scanned(db, next);
    KeysFromOrdered(first, |entries|, MetaTail(db));
    forall k | k in keys ensures k in all { ScanCovered(db, entries, next, k); }
    forall i | 0 <= i < |all| ensures all[i] in keys {
      if i < |l| {
        assert all[i] == l[i] == EntryKey(first + i);
        InScan(db, entries, next, first + i);
      } else {
        assert all[i] == META_NEXT_ID && META_NEXT_ID in db;
        EntriesBeforeMeta(next);
      }
    }
  }

  /** An ordered scan from `next` sees the entries from there on, in position order, and last the meta key. */
  lemma SweepKeys(db: Db, entries: seq<Entry>, next: int)
    requires Holds(db, entries) && IsI64(next)
    ensures Listing(Scanned(db, next)) == KeysFrom(FirstOf(|entries|, next), |entries|) + MetaTail(db)
  {
    ScanIsListed(db, entries, next);
    ListingUnique(Listing(Scanned(db, next)), KeysFrom(FirstOf(|entries|, next), |entries|) + MetaTail(db),
      Scanned(db, next));
  }

  /** The entries the first `n` keys of a scan decode to, keys of any other sort filtered out. */
  function DecodeTo(db: Db, keys: seq<string>, n: nat): seq<Entry>
    requires n <= |keys|
  {
    if n == 0 then []
    else
      var k, front := keys[n - 1], DecodeTo(db, keys, n - 1);
      if IsEntry(db, k) then front + [db[k].entry] else front
  }

  predicate IsEntry(db: Db, k: string) { k in db && db[k].EntryCell? && k != "" && k[0] == ENTRY_PREFIX }

  /** The keys are those of consecutive entries, from position `first` on. */
  ghost predicate Consecutive(db: Db, keys: seq<string>, m: nat, entries: seq<Entry>, first: nat)
  {
    && m <= |keys| && 1 <= first && first - 1 + m <= |entries|
    && forall i | 0 <= i < m :: IsEntry(db, keys[i]) && db[keys[i]].entry == entries[first - 1 + i]
  }

  lemma {:induction false} DecodeConsecutive(db: Db, keys: seq<string>, m: nat, entries: seq<Entry>, first: nat)
    requires Consecutive(db, keys, m, entries, first)
    ensures DecodeTo(db, keys, m) == entries[first - 1..first - 1 + m]
    decreases m
  {
    if m > 0 {
      var a := first - 1;
      DecodeConsecutive(db, keys, m - 1, entries, first);
      assert entries[a..a + m] == entries[a..a + (m - 1)] + [entries[a + (m - 1)]];
      assert db[keys[m - 1]].entry == entries[a + (m - 1)];
    }
  }

  lemma EntryAt(db: Db, entries: seq<Entry>, p: nat)
    requires EntriesAt(db, entries) && 1 <= p <= |entries|
    ensures IsEntry(db, EntryKey(p)) && db[EntryKey(p)].entry == entries[p - 1]
  {
  }

  lemma KeyInScan(first: nat, n: nat, tail: seq<string>, i: nat)
    requires 1 <= first && n <= I64_MAX && first + i <= n
    ensures i < |KeysFrom(first, n) + tail| && (KeysFrom(first, n) + tail)[i] == EntryKey(first + i)
  {
  }

  lemma ScanIsConsecutive(db: Db, entries: seq<Entry>, first: nat, tail: seq<string>)
    requires EntriesAt(db, entries) && 1 <= first <= |entries| + 1
    ensures Consecutive(db, KeysFrom(first, |entries|) + tail, |entries| + 1 - first, entries, first)
  {
    var keys := KeysFrom(first, |entries|) + tail;
    forall i | 0 <= i < |entries| + 1 - first
      ensures IsEntry(db, keys[i]) && db[keys[i]].entry == entries[first - 1 + i]
    {
      KeyInScan(first, |entries|, tail, i);
      EntryAt(db, entries, first + i);
    }
  }

  lemma DecodeSweep(db: Db, entries: seq<Entry>, next: int)
    requires Holds(db, entries) && IsI64(next)
    ensures var keys := Listing(Scanned(db, next)); DecodeTo(db, keys, |keys|) == SweepOf(entries, next)
  {
    SweepKeys(db, entries, next);
    ScanIsConsecutive(db, entries, FirstOf(|entries|, next), MetaTail(db));
    DecodeScan(db, entries, FirstOf(|entries|, next), KeysFrom(FirstOf(|entries|, next), |entries|));
  }

  lemma DecodeScan(db: Db, entries: seq<Entry>, first: nat, l: seq<string>)
    requires Consecutive(db, l + MetaTail(db), |l|, entries, first) && |l| == |entries| + 1 - first
    ensures DecodeTo(db, l + MetaTail(db), |l + MetaTail(db)|) == entries[first - 1..]
  {
    DecodeConsecutive(db, l + MetaTail(db), |l|, entries, first);
    if META_NEXT_ID in db {
      assert (l + MetaTail(db))[|l|] == META_NEXT_ID && !IsEntry(db, META_NEXT_ID);
    }
  }

  /** The tail loop's sweep of an iterator: decode what carries the entry prefix, in order. */
  method Collect(db: Db, keys: seq<string>) returns (committed: seq<Entry>)
    ensures committed == DecodeTo(db, keys, |keys|)
  {
    committed := [];
    for i := 0 to |keys|
      invariant committed == DecodeTo(db, keys, i)
    {
      if IsEntry(db, keys[i]) { committed := committed + [db[keys[i]].entry]; }
    }
  }

  /** The loop of `append`: each entry is stamped and put at the next position, all in one write batch. */
  method StampInto(db: Db, stream: int, next: int, batch: seq<Entry>, ghost entries: seq<Entry>)
    returns (writes: Db, position: int)
    requires HoldsEntries(db, entries) && next == |entries| + 1 && |entries| + |batch| < I64_MAX
    ensures HoldsEntries(writes, entries + Stamp(stream, next, batch)) && position == next + |batch|
  {
    writes, position := db, next;
    ghost var stamped := Stamp(stream, next, batch);
    assert entries + stamped[..0] == entries;
    for i := 0 to |batch|
      invariant position == next + i && HoldsEntries(writes, entries + stamped[..i])
    {
      var entry := batch[i].(streamId := stream, entryId := position);
      ghost var grown := entries + stamped[..i];
      PutEntry(writes, grown, entry);
      assert grown + [entry] == entries + stamped[..i + 1];
      writes := writes[EntryKey(position) := EntryCell(entry)];
      position := position + 1;
    }
    assert stamped[..|batch|] == stamped;
  }

  class RocksLog {
    const streamId: int
    var db: Db
    var nextId: int
    ghost var entries: seq<Entry>

    /** The cached and the persisted next position agree, and the store holds the dense log. */
    ghost predicate Valid()
      reads this
    {
      Holds(db, entries) && nextId == PersistedNext(db)
    }

    /** `open` on whatever store is there: a fresh one, or one a previous log left. */
    constructor Open(db: Db, ghost entries: seq<Entry>)
      requires Holds(db, entries)
      ensures Valid() && this.entries == entries && this.db == db && streamId == 1 && nextId == |entries| + 1
    {
      this.db := db;
      nextId := PersistedNext(db);
      streamId := 1;
      this.entries := entries;
    }

    /** The same log and the same answer as an in-memory append; nothing is written for an empty batch. */
    method Append(batch: seq<Entry>) returns (last: int)
      requires Valid() && |entries| + |batch| < I64_MAX
      modifies this
      ensures Valid() && entries == old(entries) + Stamp(streamId, |old(entries)| + 1, batch)
      ensures last == |entries|
    {
      if |batch| == 0 { return nextId - 1; }
      var writes, position := StampInto(db, streamId, nextId, batch, entries);
      entries := entries + Stamp(streamId, nextId, batch);
      PutNext(writes, entries);
      db := writes[META_NEXT_ID := NextCell(position)];
      nextId := position;
      last := position - 1;
    }

    method Read(position: int) returns (r: Option<Entry>)
      requires Valid() && IsI64(position)
      ensures r == At(entries, position)
    {
      if position < 1 { return None; }
      EntriesBeforeMeta(position);
      var key := EntryKey(position);
      if key !in db { return None; }
      forall p | 1 <= p <= |entries| ensures EntryKey(p) == key <==> p == position { KeyOrder(p, position); }
      return Some(db[key].entry);
    }

    /** One pass of the tail loop: everything committed from `next` on, in order. */
    method Sweep(next: int) returns (committed: seq<Entry>)
      requires Valid() && IsI64(next)
      ensures committed == SweepOf(entries, next)
    {
      DecodeSweep(db, entries, next);
      var from := EntryKey(next);
      committed := Collect(db, Listing(set k | k in db && Le(from, k)));
    }
  }
}
