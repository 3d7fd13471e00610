/** The text key of every storage cell, and what its segments make unambiguous. */
module Keys {
  import opened Names

  datatype Kind = Execution | Thread | Activity | Task | Flow | FlowVersion

  function Segment(k: Kind): string
  {
    match k
    case Execution => "execution"
    case Thread => "thread"
    case Activity => "activity"
    case Task => "task"
    case Flow => "flow"
    case FlowVersion => "flowversion"
  }

  datatype Scope = Scope(tenant: string, namespace: string)
  {
    predicate Valid() { IsPlain(tenant) && IsPlain(namespace) }
  }

  /** The address of one cell: a row, an ownership edge, a thread's variables, or one of the two scalars. */
  datatype Addr =
    | Row(kind: Kind, name: Name)
    | Edge(parentKind: Kind, parent: Name, childKind: Kind, child: Name)
    | Variables(thread: Name)
    | LastPosition
    | NextSeq
  {
    predicate Valid()
    {
      match this
      case Row(_, name) => name.Valid()
      case Edge(_, parent, _, child) => parent.Valid() && child.Valid()
      case Variables(thread) => thread.Valid()
      case LastPosition => true
      case NextSeq => true
    }
  }

  function Segments(sc: Scope, a: Addr): (r: seq<string>)
    ensures |r| >= 4 && r[0] == sc.tenant && r[1] == sc.namespace
  {
    [sc.tenant, sc.namespace] +
    match a
    case Row(kind, name) => [Segment(kind), AsStr(name)]
    case Edge(pk, pn, ck, cn) => ["_index", "children", Segment(pk), AsStr(pn), Segment(ck), AsStr(cn)]
    case Variables(thread) => ["_index", "variables", AsStr(thread)]
    case LastPosition => ["_global", "last_processed_position"]
    case NextSeq => ["_global", "next_generated_seq"]
  }

  function Join(segments: seq<string>): string
  {
    if segments == [] then "" else "/" + segments[0] + Join(segments[1..])
  }

  function Key(sc: Scope, a: Addr): string { Join(Segments(sc, a)) }

  function KindPrefix(sc: Scope, k: Kind): string { Join([sc.tenant, sc.namespace, Segment(k), ""]) }

  function VersionPrefix(sc: Scope, flow: string): string
  {
    Join([sc.tenant, sc.namespace, Segment(FlowVersion), flow + "-"])
  }

  function EdgeSegments(sc: Scope, pk: Kind, pn: Name): seq<string>
  {
    [sc.tenant, sc.namespace, "_index", "children", Segment(pk), AsStr(pn)]
  }

  function EdgePrefix(sc: Scope, pk: Kind, pn: Name): string { Join(EdgeSegments(sc, pk, pn) + [""]) }

  /** Where the rows of each kind live. */
  lemma RowLayout(sc: Scope, kind: Kind, name: Name)
    ensures var word :=
        match kind
        case Execution => "execution"
        case Thread => "thread"
        case Activity => "activity"
        case Task => "task"
        case Flow => "flow"
        case FlowVersion => "flowversion";
      Key(sc, Row(kind, name)) == "/" + sc.tenant + "/" + sc.namespace + ("/" + word + "/" + AsStr(name))
  {
    JoinScope(sc, [Segment(kind), AsStr(name)]);
    JoinTwo(Segment(kind), AsStr(name));
  }

  /** Where derived cells and the two scalars live. */
  lemma IndexLayout(sc: Scope, a: Addr)
    requires !a.Row?
    ensures Key(sc, a) == "/" + sc.tenant + "/" + sc.namespace +
      match a
      case Edge(pk, pn, ck, cn) => "/" + "_index" + ("/" + "children" + ("/" + Segment(pk) + ("/" + AsStr(pn) +
        ("/" + Segment(ck) + "/" + AsStr(cn)))))
      case Variables(thread) => "/" + "_index" + ("/" + "variables" + "/" + AsStr(thread))
      case LastPosition => "/" + "_global" + "/" + "last_processed_position"
      case NextSeq => "/" + "_global" + "/" + "next_generated_seq"
  {
    match a {
      case Edge(pk, pn, ck, cn) =>
        JoinScope(sc, ["_index", "children", Segment(pk), AsStr(pn), Segment(ck), AsStr(cn)]);
        JoinTwo(Segment(ck), AsStr(cn));
        JoinFour(Segment(pk), AsStr(pn), [Segment(ck), AsStr(cn)]);
        assert ["_index", "children", Segment(pk), AsStr(pn)] + [Segment(ck), AsStr(cn)] ==
          ["_index", "children", Segment(pk), AsStr(pn), Segment(ck), AsStr(cn)];
      case Variables(thread) =>
        JoinScope(sc, ["_index", "variables", AsStr(thread)]);
        JoinTwo("variables", AsStr(thread));
        JoinCons("_index", ["variables", AsStr(thread)]);
      case LastPosition =>
        JoinScope(sc, ["_global", "last_processed_position"]);
        JoinTwo("_global", "last_processed_position");
      case NextSeq =>
        JoinScope(sc, ["_global", "next_generated_seq"]);
        JoinTwo("_global", "next_generated_seq");
    }
  }

  lemma JoinFour(s: string, t: string, rest: seq<string>)
    ensures Join(["_index", "children", s, t] + rest) ==
      "/" + "_index" + ("/" + "children" + ("/" + s + ("/" + t + Join(rest))))
  {
    JoinCons(t, rest);
    JoinCons(s, [t] + rest);
    JoinCons("children", [s] + ([t] + rest));
    JoinCons("_index", ["children"] + ([s] + ([t] + rest)));
    assert ["_index", "children", s, t] + rest == ["_index"] + (["children"] + ([s] + ([t] + rest)));
  }

  lemma JoinCons(s: string, rest: seq<string>)
    ensures Join([s] + rest) == "/" + s + Join(rest)
  {
    assert ([s] + rest)[1..] == rest;
  }

  lemma JoinTwo(s: string, t: string)
    ensures Join([s, t]) == "/" + s + "/" + t
  {
    JoinCons(t, []);
    JoinCons(s, [t]);
    assert [s] + [t] == [s, t] && [t] + [] == [t];
  }

  lemma JoinScope(sc: Scope, tail: seq<string>)
    ensures Join([sc.tenant, sc.namespace] + tail) == "/" + sc.tenant + "/" + sc.namespace + Join(tail)
  {
    JoinCons(sc.namespace, tail);
    JoinCons(sc.tenant, [sc.namespace] + tail);
    assert [sc.tenant, sc.namespace] + tail == [sc.tenant] + ([sc.namespace] + tail);
  }

  /** `join`: the key is built left to right in one buffer. */
  method JoinSegments(segments: seq<string>) returns (key: string)
    ensures key == Join(segments)
  {
    key := "";
    for i := 0 to |segments|
      invariant key + Join(segments[i..]) == Join(segments)
    {
      assert segments[i..][0] == segments[i] && segments[i..][1..] == segments[i + 1..];
      key := key + "/" + segments[i];
    }
  }

  // ---------- Joining slash-free segments loses nothing ----------

  predicate NoSlash(s: string) { '/' !in s }

  predicate NoSlashes(segments: seq<string>) { forall i | 0 <= i < |segments| :: NoSlash(segments[i]) }

  /** A rest of key: nothing, or something that starts at a slash. */
  predicate Rest(s: string) { s == "" || s[0] == '/' }

  /** A slash in a slash-free head and its rest is in the rest. */
  lemma SlashInRest(q: string, v: string, i: nat)
    requires NoSlash(q) && i < |q + v| && (q + v)[i] == '/'
    ensures i >= |q|
  {
  }

  /** Two slash-free heads before rests agree as soon as the first, with its slash, is a prefix. */
  lemma HeadMatch(p: string, u: string, q: string, v: string)
    requires NoSlash(p) && NoSlash(q) && Rest(u) && Rest(v) && u != ""
    ensures p + u <= q + v <==> p == q && u <= v
  {
    if p + u <= q + v {
      assert (q + v)[|p|] == (p + u)[|p|];
      SlashInRest(q, v, |p|);
      assert (p + u)[|q|] == (q + v)[|q|];
      SlashInRest(p, u, |q|);
      assert p == (p + u)[..|p|] == (q + v)[..|p|] == q;
      assert u == (p + u)[|p|..] && v == (q + v)[|p|..];
      assert forall i | 0 <= i < |u| :: u[i] == (p + u)[|p| + i] == (q + v)[|p| + i] == v[i];
    }
    if p == q && u <= v {
      assert q + v == p + u + v[|u|..];
    }
  }

  lemma HeadStart(x: string, q: string, v: string)
    requires NoSlash(x) && NoSlash(q) && Rest(v)
    ensures x <= q + v <==> x <= q
  {
    if x <= q {
      assert q + v == x + (q[|x|..] + v);
    }
    if x <= q + v && v != "" {
      assert (q + v)[|q|] == '/';
      assert |x| <= |q| by {
        assert forall i | 0 <= i < |x| :: (q + v)[i] == x[i] && x[i] != '/';
      }
      assert x == (q + v)[..|x|] == q[..|x|];
    }
  }

  lemma SlashPrefix(u: string, v: string)
    ensures "/" + u <= "/" + v <==> u <= v
  {
    if u <= v {
      assert "/" + v == ("/" + u) + v[|u|..];
    }
    if "/" + u <= "/" + v {
      assert u == ("/" + u)[1..] && v == ("/" + v)[1..];
      assert forall i | 0 <= i < |u| :: u[i] == ("/" + u)[i + 1] == ("/" + v)[i + 1] == v[i];
    }
  }

  lemma JoinStep(p: string, u: seq<string>, q: string, v: seq<string>)
    requires NoSlash(p) && NoSlash(q) && u != []
    ensures Join([p] + u) <= Join([q] + v) <==> p == q && Join(u) <= Join(v)
  {
    assert ([p] + u)[1..] == u && ([q] + v)[1..] == v;
    assert Join([p] + u) == "/" + (p + Join(u)) && Join([q] + v) == "/" + (q + Join(v));
    SlashPrefix(p + Join(u), q + Join(v));
    HeadMatch(p, Join(u), q, Join(v));
  }

  lemma JoinStart(x: string, q: string, v: seq<string>)
    requires NoSlash(x) && NoSlash(q)
    ensures Join([x]) <= Join([q] + v) <==> x <= q
  {
    assert [x][1..] == [] && ([q] + v)[1..] == v;
    assert Join([x]) == "/" + x && Join([q] + v) == "/" + (q + Join(v));
    SlashPrefix(x, q + Join(v));
    HeadStart(x, q, Join(v));
  }

  /**
   * A joined key starts with the join of `p` and `x` exactly when its segments start with `p` and then
   * something from `x` on.
   */
  lemma {:induction false} JoinPrefix(p: seq<string>, x: string, s: seq<string>)
    requires NoSlashes(p) && NoSlash(x) && NoSlashes(s)
    ensures Join(p + [x]) <= Join(s) <==> |p| < |s| && p == s[..|p|] && x <= s[|p|]
    decreases |p|
  {
    if s == [] {
      assert Join(p + [x]) != "";
    } else if p == [] {
      assert p + [x] == [x] && s == [s[0]] + s[1..];
      JoinStart(x, s[0], s[1..]);
    } else {
      assert p + [x] == [p[0]] + (p[1..] + [x]) && s == [s[0]] + s[1..];
      JoinStep(p[0], p[1..] + [x], s[0], s[1..]);
      JoinPrefix(p[1..], x, s[1..]);
      assert |p| <= |s| ==> s[..|p|] == [s[0]] + s[1..][..|p| - 1];
      assert p == [p[0]] + p[1..];
    }
  }

  lemma JoinInjective(a: seq<string>, b: seq<string>)
    requires NoSlashes(a) && NoSlashes(b) && Join(a) == Join(b)
    ensures a == b
  {
    if a != [] && b != [] {
      var n, m := |a| - 1, |b| - 1;
      assert a == a[..n] + [a[n]] && b == b[..m] + [b[m]];
      JoinPrefix(a[..n], a[n], b);
      JoinPrefix(b[..m], b[m], a);
      assert n == m && a[..n] == b[..m] && a[n] <= b[m] && b[m] <= a[n];
      assert a[n] == b[m];
    }
  }

  // ---------- Addresses ----------

  lemma KindsDistinct(j: Kind, k: Kind)
    ensures Segment(j) == Segment(k) ==> j == k
    ensures Segment(j) != "_index" && Segment(j) != "_global" && NoSlash(Segment(j))
  {
    assert Segment(j)[0] != '_' && Segment(k)[0] != '_';
    if j != k && |Segment(j)| == |Segment(k)| {
      assert Segment(j)[1] != Segment(k)[1] || Segment(j)[0] != Segment(k)[0];
    }
  }

  lemma SegmentsHaveNoSlash(sc: Scope, a: Addr)
    requires sc.Valid() && a.Valid()
    ensures NoSlashes(Segments(sc, a))
  {
    match a {
      case Row(kind, name) => NameHasNoSlash(name); KindsDistinct(kind, kind);
      case Edge(pk, pn, ck, cn) => NameHasNoSlash(pn); NameHasNoSlash(cn); KindsDistinct(pk, ck); KindsDistinct(ck, pk);
      case Variables(thread) => NameHasNoSlash(thread);
      case LastPosition =>
      case NextSeq =>
    }
  }

  lemma SegmentsInjective(sc: Scope, a: Addr, sc': Scope, b: Addr)
    requires a.Valid() && b.Valid() && Segments(sc, a) == Segments(sc', b)
    ensures sc == sc' && a == b
  {
    var s, t := Segments(sc, a), Segments(sc', b);
    assert s[2] == t[2] && s[3] == t[3];
    match a {
      case Row(kind, name) =>
        KindsDistinct(kind, if b.Row? then b.kind else kind);
        if b.Row? { PrintInjective(name, b.name); }
      case Edge(pk, pn, ck, cn) =>
        if b.Row? { KindsDistinct(b.kind, b.kind); }
        if b.Edge? {
          assert s[4] == t[4] && s[5] == t[5] && s[6] == t[6] && s[7] == t[7];
          KindsDistinct(pk, b.parentKind);
          KindsDistinct(ck, b.childKind);
          PrintInjective(pn, b.parent);
          PrintInjective(cn, b.child);
        }
      case Variables(thread) =>
        if b.Row? { KindsDistinct(b.kind, b.kind); }
        if b.Variables? { assert s[4] == t[4]; PrintInjective(thread, b.thread); }
      case LastPosition => if b.Row? { KindsDistinct(b.kind, b.kind); }
      case NextSeq => if b.Row? { KindsDistinct(b.kind, b.kind); }
    }
  }

  /** Distinct cells, of whatever sort and in whatever scope, have distinct keys. */
  lemma KeyInjective(sc: Scope, a: Addr, sc': Scope, b: Addr)
    requires sc.Valid() && sc'.Valid() && a.Valid() && b.Valid() && Key(sc, a) == Key(sc', b)
    ensures sc == sc' && a == b
  {
    SegmentsHaveNoSlash(sc, a);
    SegmentsHaveNoSlash(sc', b);
    JoinInjective(Segments(sc, a), Segments(sc', b));
    SegmentsInjective(sc, a, sc', b);
  }

  /** A kind's prefix starts exactly the keys of that kind's rows in that scope. */
  lemma KindPrefixExact(sc: Scope, k: Kind, sc': Scope, a: Addr)
    requires sc.Valid() && sc'.Valid() && a.Valid()
    ensures KindPrefix(sc, k) <= Key(sc', a) <==> sc == sc' && a.Row? && a.kind == k
  {
    SegmentsHaveNoSlash(sc', a);
    var p, s := [sc.tenant, sc.namespace, Segment(k)], Segments(sc', a);
    KindsDistinct(k, if a.Row? then a.kind else k);
    assert p + [""] == [sc.tenant, sc.namespace, Segment(k), ""];
    JoinPrefix(p, "", s);
    assert p == s[..3] <==> sc.tenant == s[0] && sc.namespace == s[1] && Segment(k) == s[2];
  }

  /** A parent's prefix starts exactly the keys of that parent's ownership edges in that scope. */
  lemma EdgePrefixExact(sc: Scope, pk: Kind, pn: Name, sc': Scope, a: Addr)
    requires sc.Valid() && sc'.Valid() && pn.Valid() && a.Valid()
    ensures EdgePrefix(sc, pk, pn) <= Key(sc', a) <==> sc == sc' && a.Edge? && a.parentKind == pk && a.parent == pn
  {
    var p, s := EdgeSegments(sc, pk, pn), Segments(sc', a);
    SegmentsHaveNoSlash(sc', a);
    SegmentsHaveNoSlash(sc, Edge(pk, pn, pk, pn));
    assert p == Segments(sc, Edge(pk, pn, pk, pn))[..6];
    JoinPrefix(p, "", s);
    if a.Edge? {
      KindsDistinct(pk, a.parentKind);
      if AsStr(pn) == AsStr(a.parent) { PrintInjective(pn, a.parent); }
      assert s[..6] == EdgeSegments(sc', a.parentKind, a.parent);
    }
  }

  /** `{flow}-` starts the spelling of exactly the generated names over that flow. */
  lemma DashPrefix(flow: string, n: Name)
    requires IsPlain(flow) && n.Valid()
    ensures flow + "-" <= AsStr(n) <==> n.Generated? && n.base == flow
  {
    var x, spelt := flow + "-", AsStr(n);
    if x <= spelt {
      assert spelt[|flow|] == x[|flow|];
      DashAtBase(n, |flow|);
      assert flow == x[..|flow|] == spelt[..|flow|] == n.base;
    }
  }

  lemma DashAtBase(n: Name, i: nat)
    requires n.Valid() && i < |AsStr(n)| && AsStr(n)[i] == '-'
    ensures n.Generated? && i == |n.base|
  {
    forall j | 0 <= j < |n.base| ensures AsStr(n)[j] != '-' {
      assert AsStr(n)[j] == n.base[j];
    }
    if n.Generated? {
      forall j | |n.base| < j < |AsStr(n)| ensures AsStr(n)[j] != '-' {
        assert AsStr(n)[j] == Decimal(n.suffix)[j - |n.base| - 1];
      }
    }
  }

  /** A flow's version prefix starts exactly the keys of that flow's version rows in that scope. */
  lemma VersionPrefixExact(sc: Scope, flow: string, sc': Scope, a: Addr)
    requires sc.Valid() && sc'.Valid() && IsPlain(flow) && a.Valid()
    ensures VersionPrefix(sc, flow) <= Key(sc', a) <==>
      sc == sc' && a.Row? && a.kind == FlowVersion && a.name.Generated? && a.name.base == flow
  {
    SegmentsHaveNoSlash(sc', a);
    NameHasNoSlash(Plain(flow));
    var p, s := [sc.tenant, sc.namespace, Segment(FlowVersion)], Segments(sc', a);
    KindsDistinct(FlowVersion, if a.Row? then a.kind else FlowVersion);
    assert p + [flow + "-"] == [sc.tenant, sc.namespace, Segment(FlowVersion), flow + "-"];
    JoinPrefix(p, flow + "-", s);
    assert p == s[..3] <==> sc.tenant == s[0] && sc.namespace == s[1] && Segment(FlowVersion) == s[2];
    if a.Row? { DashPrefix(flow, a.name); }
  }
}
