/** Listing one kind's rows in name order, and crawling them page by page with a continue token. */
module Paging {
  import opened Entries
  import opened Names
  import opened Keys
  import opened Lex
  import opened Overlay

  /** Every stored row and scope is under a name that could be constructed. */
  ghost predicate NamesValid(v: View)
  {
    forall id | id in v.rows :: id.1.Valid()
  }

  function KindNames(v: View, kind: Kind): set<string>
  {
    set id | id in v.rows && id.0 == kind :: AsStr(id.1)
  }

  /** The names strictly after `after`, in the order given. */
  function Above(l: seq<string>, after: Option<string>): seq<string>
  {
    if after.None? || l == [] then l
    else if !Le(l[0], after.value) then [l[0]] + Above(l[1..], after)
    else Above(l[1..], after)
  }

  function Take<T>(l: seq<T>, n: nat): seq<T> { if n <= |l| then l[..n] else l }

  lemma ParsesBack(v: View, kind: Kind, s: string)
    requires NamesValid(v) && s in KindNames(v, kind)
    ensures FromParsed(s).Some? && AsStr(FromParsed(s).value) == s && FromParsed(s).value.Valid()
    ensures (kind, FromParsed(s).value) in v.rows
  {
    var id :| id in v.rows && id.0 == kind && AsStr(id.1) == s;
    PrintParse(id.1);
  }

  function InOrder(v: View, kind: Kind): seq<string> { Listing(KindNames(v, kind)) }

  /** `Storage::list_kind` in memory: sort by name, drop up to the offset, cut the page. */
  function ListKind(v: View, kind: Kind, after: Option<string>, limit: nat): seq<string>
  {
    Take(Above(InOrder(v, kind), after), limit)
  }

  lemma {:induction false} AboveMember(l: seq<string>, after: Option<string>, s: string)
    ensures s in Above(l, after) <==> s in l && (after.Some? ==> !Le(s, after.value))
  {
    if l != [] {
      assert l == [l[0]] + l[1..];
      AboveMember(l[1..], after, s);
    }
  }

  /** In an ordered list, what lies above the last name of a prefix is the rest. */
  lemma {:induction false} AboveIsSuffix(l: seq<string>, i: nat)
    requires Ordered(l) && 0 < i <= |l|
    ensures Above(l, Some(l[i - 1])) == l[i..]
    decreases i
  {
    LeRefl(l[0]);
    if i == 1 {
      AboveAll(l[1..], l[0]);
    } else {
      assert l[1..][i - 2] == l[i - 1] && l[1..][i - 1..] == l[i..];
      AboveIsSuffix(l[1..], i - 1);
    }
  }

  lemma {:induction false} AboveAll(l: seq<string>, s: string)
    requires forall i | 0 <= i < |l| :: Le(s, l[i]) && l[i] != s
    ensures Above(l, Some(s)) == l
  {
    if l != [] {
      if Le(l[0], s) { LeAntisym(l[0], s); }
      AboveAll(l[1..], s);
    }
  }

  // ---------- Pages ----------

  const USIZE_MAX: nat := 0xFFFF_FFFF_FFFF_FFFF

  datatype Page = Page(names: seq<string>, token: Option<string>)

  /** The name string a continue token stands for, or `None` for one that is no name. */
  function ReadToken(token: string): Option<string>
  {
    match FromParsed(token)
    case Some(n) => Some(AsStr(n))
    case None => None
  }

  /** How tokens are read, kept apart from how pages are cut. */
  type Reader = string -> Option<string>

  /** One page over the names `l` of a kind; `None` is the invalid-token error. */
  function PageOf(read: Reader, l: seq<string>, limit: nat, token: Option<string>): Option<Page>
  {
    var resume := token.Some? && token.value != "";
    if resume && read(token.value).None? then None
    else
      var after := if resume then read(token.value) else None;
      var rows := Take(Above(l, after), if limit < USIZE_MAX then limit + 1 else USIZE_MAX);
      var names := Take(rows, limit);
      Some(Page(names, if |rows| > limit && names != [] then Some(names[|names| - 1]) else None))
  }

  /** `list_kind` of the query facade, over what storage lists. */
  function ListPage(v: View, kind: Kind, limit: nat, token: Option<string>): Option<Page>
  {
    PageOf(ReadToken, InOrder(v, kind), limit, token)
  }

  /** A page is refused exactly when it carries a token, not the empty one, that spells no name. */
  lemma RefusedIff(v: View, kind: Kind, limit: nat, token: Option<string>)
    ensures ListPage(v, kind, limit, token).None? <==>
      && token.Some? && token.value != "" && !IsPlain(token.value)
      && forall base, digits | Spells(token.value, base, digits) :: Value(digits) > U64_MAX
  {
    if token.Some? { ParseAccepts(token.value); }
  }

  /** A list a kind's rows could give: in order, and every name read back as itself. */
  ghost predicate Pageable(read: Reader, l: seq<string>)
  {
    Ordered(l) && |l| <= USIZE_MAX && forall i | 0 <= i < |l| :: l[i] != "" && read(l[i]) == Some(l[i])
  }

  /** The token that resumes after the first `i` rows. */
  ghost function TokenAt(l: seq<string>, i: nat): Option<string>
    requires i <= |l|
  {
    if i == 0 then None else Some(l[i - 1])
  }

  ghost function Expected(l: seq<string>, limit: nat, i: nat): Page
    requires i <= |l| && 1 <= limit
  {
    if i + limit < |l| then Page(l[i..i + limit], Some(l[i + limit - 1])) else Page(l[i..], None)
  }

  /** The page that resumes after `i` rows holds exactly the next `limit`, and a token exactly when rows remain. */
  lemma PageAt(read: Reader, l: seq<string>, limit: nat, i: nat)
    requires Pageable(read, l) && 1 <= limit && i <= |l|
    ensures PageOf(read, l, limit, TokenAt(l, i)) == Some(Expected(l, limit, i))
  {
    var after := TokenAt(l, i);
    assert Above(l, after) == l[i..] by {
      if i > 0 { AboveIsSuffix(l, i); }
    }
    CutPage(l, limit, i);
  }

  lemma CutPage(l: seq<string>, limit: nat, i: nat)
    requires |l| <= USIZE_MAX && 1 <= limit && i <= |l|
    ensures var rows := Take(l[i..], if limit < USIZE_MAX then limit + 1 else USIZE_MAX);
      && Take(rows, limit) == Expected(l, limit, i).names
      && (|rows| > limit <==> i + limit < |l|)
  {
    if i + limit < |l| {
      assert l[i..][..limit + 1][..limit] == l[i..i + limit];
    }
  }

  function PagesNeeded(n: nat, limit: nat): nat
    requires limit >= 1
  {
    if n <= limit then 1 else 1 + PagesNeeded(n - limit, limit)
  }

  /** `k` pages hold `n` rows, and no fewer do; one page is always fetched. */
  ghost predicate IsCeil(k: nat, n: nat, limit: nat) { k >= 1 && n <= k * limit && (k > 1 ==> (k - 1) * limit < n) }

  lemma {:induction false} PagesNeededIsCeil(n: nat, limit: nat)
    requires limit >= 1
    ensures IsCeil(PagesNeeded(n, limit), n, limit)
  {
    if n > limit {
      PagesNeededIsCeil(n - limit, limit);
      var k := PagesNeeded(n - limit, limit);
      assert (k + 1) * limit == k * limit + limit;
      assert k * limit == (k - 1) * limit + limit;
    }
  }

  function Flatten(pages: seq<Page>): seq<string>
  {
    if pages == [] then [] else pages[0].names + Flatten(pages[1..])
  }

  /** `pages` is what a client gets that follows every token from `token` on until a page brings none. */
  ghost predicate Crawl(read: Reader, l: seq<string>, limit: nat, token: Option<string>, pages: seq<Page>)
    decreases |pages|
  {
    && pages != []
    && PageOf(read, l, limit, token) == Some(pages[0])
    && (if pages[0].token.None? then |pages| == 1 else Crawl(read, l, limit, pages[0].token, pages[1..]))
  }

  lemma CrawlStep(read: Reader, l: seq<string>, limit: nat, i: nat, pages: seq<Page>)
    requires Pageable(read, l) && 1 <= limit && i <= |l| && Crawl(read, l, limit, TokenAt(l, i), pages)
    ensures pages != [] && pages[0] == Expected(l, limit, i)
    ensures if i + limit < |l| then Crawl(read, l, limit, TokenAt(l, i + limit), pages[1..]) else |pages| == 1
  {
    PageAt(read, l, limit, i);
  }

  /** `pages` cuts `l`, from row `i` on, into full pages and a last one. */
  ghost predicate Cuts(l: seq<string>, limit: nat, i: nat, pages: seq<Page>)
    requires i <= |l| && 1 <= limit
    decreases |pages|
  {
    && pages != [] && pages[0] == Expected(l, limit, i)
    && (if i + limit < |l| then Cuts(l, limit, i + limit, pages[1..]) else |pages| == 1)
  }

  lemma {:induction false} CrawlCuts(read: Reader, l: seq<string>, limit: nat, i: nat, pages: seq<Page>)
    requires Pageable(read, l) && 1 <= limit && i <= |l| && Crawl(read, l, limit, TokenAt(l, i), pages)
    ensures Cuts(l, limit, i, pages)
    decreases |pages|
  {
    CrawlStep(read, l, limit, i, pages);
    if i + limit < |l| { CrawlCuts(read, l, limit, i + limit, pages[1..]); }
  }

  /** Full pages and a last one are exactly the rows, in as few pages as possible. */
  lemma {:induction false} CutsFlatten(l: seq<string>, limit: nat, i: nat, pages: seq<Page>)
    requires 1 <= limit && i <= |l| && Cuts(l, limit, i, pages)
    ensures Flatten(pages) == l[i..]
    ensures |pages| == PagesNeeded(|l| - i, limit)
    decreases |pages|
  {
    if i + limit < |l| {
      CutsFlatten(l, limit, i + limit, pages[1..]);
      assert l[i..] == l[i..i + limit] + l[i + limit..];
    } else {
      assert pages[1..] == [] && l[i..] + [] == l[i..];
    }
  }

  lemma {:induction false} CrawlExists(read: Reader, l: seq<string>, limit: nat, i: nat) returns (pages: seq<Page>)
    requires Pageable(read, l) && 1 <= limit && i <= |l|
    ensures Crawl(read, l, limit, TokenAt(l, i), pages)
    decreases |l| - i
  {
    PageAt(read, l, limit, i);
    var page := Expected(l, limit, i);
    if page.token.None? {
      pages := [page];
    } else {
      var rest := CrawlExists(read, l, limit, i + limit);
      pages := [page] + rest;
      assert pages[1..] == rest;
    }
  }

  lemma ListingIsPageable(v: View, kind: Kind)
    requires NamesValid(v) && |KindNames(v, kind)| <= USIZE_MAX
    ensures Pageable(ReadToken, InOrder(v, kind))
  {
    var l := InOrder(v, kind);
    forall i | 0 <= i < |l|
      ensures l[i] != "" && ReadToken(l[i]) == Some(l[i])
    {
      ParsesBack(v, kind, l[i]);
    }
  }

  /**
   * Following continue tokens from the start ends, after as many pages as the rows need and at least
   * one, and the pages are exactly the kind's names in order, none missed and none repeated.
   */
  lemma CrawlIsListing(v: View, kind: Kind, limit: nat)
    requires NamesValid(v) && 1 <= limit && |KindNames(v, kind)| <= USIZE_MAX
    ensures exists pages :: Crawl(ReadToken, InOrder(v, kind), limit, None, pages)
    ensures forall pages | Crawl(ReadToken, InOrder(v, kind), limit, None, pages) ::
      Lists(Flatten(pages), KindNames(v, kind)) && IsCeil(|pages|, |KindNames(v, kind)|, limit)
  {
    ListingIsPageable(v, kind);
    PagesExactly(ReadToken, InOrder(v, kind), limit);
  }

  lemma PagesExactly(read: Reader, l: seq<string>, limit: nat)
    requires Pageable(read, l) && 1 <= limit
    ensures exists pages :: Crawl(read, l, limit, None, pages)
    ensures forall pages | Crawl(read, l, limit, None, pages) :: Flatten(pages) == l && IsCeil(|pages|, |l|, limit)
  {
    var crawl := CrawlExists(read, l, limit, 0);
    PagesNeededIsCeil(|l|, limit);
    forall pages | Crawl(read, l, limit, None, pages)
      ensures Flatten(pages) == l && |pages| == PagesNeeded(|l|, limit)
    {
      CrawlCuts(read, l, limit, 0, pages);
      CutsFlatten(l, limit, 0, pages);
      assert l[0..] == l;
    }
  }
}
