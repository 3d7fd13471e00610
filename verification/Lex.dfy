/** Byte-wise lexicographic order on text keys, and the ordered listing of a set of keys. */
module Lex {

  predicate Le(a: string, b: string)
  {
    a == "" || (b != "" && (a[0] < b[0] || (a[0] == b[0] && Le(a[1..], b[1..]))))
  }

  lemma {:induction false} LeRefl(a: string)
    ensures Le(a, a)
  {
    if a != "" { LeRefl(a[1..]); }
  }

  lemma {:induction false} LeTotal(a: string, b: string)
    ensures Le(a, b) || Le(b, a)
  {
    if a != "" && b != "" && a[0] == b[0] { LeTotal(a[1..], b[1..]); }
  }

  lemma {:induction false} LeAntisym(a: string, b: string)
    requires Le(a, b) && Le(b, a)
    ensures a == b
  {
    if a != "" && b != "" {
      LeAntisym(a[1..], b[1..]);
      assert a == [a[0]] + a[1..] && b == [b[0]] + b[1..];
    }
  }

  lemma {:induction false} LeTrans(a: string, b: string, c: string)
    requires Le(a, b) && Le(b, c)
    ensures Le(a, c)
  {
    if a != "" && b != "" && c != "" && a[0] == b[0] == c[0] { LeTrans(a[1..], b[1..], c[1..]); }
  }

  /** A common prefix does not affect the comparison. */
  lemma {:induction false} LeUnder(p: string, a: string, b: string)
    ensures Le(p + a, p + b) <==> Le(a, b)
  {
    if p == "" {
      assert p + a == a && p + b == b;
    } else {
      assert (p + a)[1..] == p[1..] + a && (p + b)[1..] == p[1..] + b;
      LeUnder(p[1..], a, b);
    }
  }

  lemma PrefixFirst(p: string, s: string)
    requires p <= s
    ensures Le(p, s)
  {
    assert p + "" == p && p + s[|p|..] == s;
    LeUnder(p, "", s[|p|..]);
  }

  /** The strings that start with `p` are contiguous: nothing else lies between `p` and one of them. */
  lemma {:induction false} PrefixConvex(p: string, k: string, s: string)
    requires p <= s && Le(p, k) && Le(k, s)
    ensures p <= k
  {
    if p != "" {
      assert p[0] == s[0] && p[1..] <= s[1..] by {
        assert forall i | 0 <= i < |p| - 1 :: p[1..][i] == p[i + 1] == s[i + 1] == s[1..][i];
      }
      PrefixConvex(p[1..], k[1..], s[1..]);
      assert k == [k[0]] + k[1..] && p == [p[0]] + p[1..];
      assert k == p + k[1..][|p| - 1..];
    }
  }

  // ---------- Ordered listings ----------

  ghost predicate Ordered(l: seq<string>)
  {
    forall i, j | 0 <= i < j < |l| :: Le(l[i], l[j]) && l[i] != l[j]
  }

  /** `l` is what an ordered iterator over `keys` yields: each key once, in order. */
  ghost predicate Lists(l: seq<string>, keys: set<string>)
  {
    Ordered(l) && (forall i | 0 <= i < |l| :: l[i] in keys) && (forall k | k in keys :: k in l)
  }

  predicate IsLeast(m: string, keys: set<string>)
  {
    m in keys && forall k | k in keys :: Le(m, k)
  }

  lemma {:induction false} LeastExists(keys: set<string>)
    requires keys != {}
    ensures exists m :: IsLeast(m, keys)
    decreases |keys|
  {
    var k :| k in keys;
    LeRefl(k);
    if keys - {k} != {} {
      LeastExists(keys - {k});
      var m :| IsLeast(m, keys - {k});
      LeTotal(k, m);
      if Le(m, k) {
        assert IsLeast(m, keys);
      } else {
        forall x | x in keys ensures Le(k, x) { if x != k { LeTrans(k, m, x); } }
        assert IsLeast(k, keys);
      }
    } else {
      assert keys == {k};
      assert IsLeast(k, keys);
    }
  }

  lemma LeastUnique(keys: set<string>)
    ensures forall m, n | IsLeast(m, keys) && IsLeast(n, keys) :: m == n
  {
    forall m, n | IsLeast(m, keys) && IsLeast(n, keys) ensures m == n { LeAntisym(m, n); }
  }

  lemma ListsCons(m: string, rest: seq<string>, keys: set<string>)
    requires IsLeast(m, keys) && Lists(rest, keys - {m})
    ensures Lists([m] + rest, keys)
  {
    var l := [m] + rest;
    forall k | k in keys ensures k in l {
      if k != m { assert k in rest; }
    }
  }

  /** The keys in order. */
  function Listing(keys: set<string>): (l: seq<string>)
    ensures Lists(l, keys) && |l| == |keys|
  {
    if keys == {} then [] else
      LeastExists(keys);
      LeastUnique(keys);
      var m :| IsLeast(m, keys);
      ListsCons(m, Listing(keys - {m}), keys);
      [m] + Listing(keys - {m})
  }

  /** There is only one ordered listing of a set. */
  lemma {:induction false} ListingUnique(l: seq<string>, m: seq<string>, keys: set<string>)
    requires Lists(l, keys) && Lists(m, keys)
    ensures l == m
    decreases |l|
  {
    ListsNothing(l, keys);
    ListsNothing(m, keys);
    if keys != {} {
      var i :| 0 <= i < |m| && m[i] == l[0];
      var j :| 0 <= j < |l| && l[j] == m[0];
      LeRefl(l[0]);
      LeRefl(m[0]);
      LeAntisym(l[0], m[0]);
      ListsTail(l, keys);
      ListsTail(m, keys);
      ListingUnique(l[1..], m[1..], keys - {l[0]});
      assert l == [l[0]] + l[1..] && m == [m[0]] + m[1..];
    }
  }

  /** One ordered listing after another, all of whose keys come later. */
  lemma ListsConcat(l: seq<string>, m: seq<string>, keys: set<string>, more: set<string>)
    requires Lists(l, keys) && Lists(m, more)
    requires forall i, j | 0 <= i < |l| && 0 <= j < |m| :: Le(l[i], m[j]) && l[i] != m[j]
    ensures Lists(l + m, keys + more)
  {
    forall k | k in keys + more ensures k in l + m {
      assert k in l || k in m;
    }
  }

  lemma ListsNothing(l: seq<string>, keys: set<string>)
    requires Lists(l, keys)
    ensures l == [] <==> keys == {}
  {
    if l != [] { assert l[0] in keys; }
  }

  lemma ListsTail(l: seq<string>, keys: set<string>)
    requires Lists(l, keys) && l != []
    ensures Lists(l[1..], keys - {l[0]})
  {
    forall k | k in keys - {l[0]} ensures k in l[1..] {
      var i :| 0 <= i < |l| && l[i] == k;
      assert l[1..][i - 1] == k;
    }
  }
}
