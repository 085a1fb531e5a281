/** Merging every page of an upstream's tool list into one answer, without ever following a server
    that pages forever. */
module ToolPages {
  import opened Common

  const MAX_TOOL_PAGES: nat := 64

  const MAX_MERGED_TOOLS: nat := 10_000

  type Cursor = string

  /** One answer to a list request. `meta` stands for what it says about caching. */
  datatype Page = Page(tools: seq<string>, next: Option<Cursor>, meta: string)

  /** The answer to the k-th request of a walk, which may depend on more than the cursor. */
  type Server = (nat, Option<Cursor>) -> Result<Page, string>

  function Concat(pages: seq<Page>): seq<string> {
    if pages == [] then [] else Concat(pages[..|pages| - 1]) + pages[|pages| - 1].tools
  }

  /** The cursor the k-th request of a walk carries: the client's own, then the one just handed out. */
  function Asked(first: Option<Cursor>, pages: seq<Page>, k: nat): Option<Cursor>
    requires k <= |pages|
  {
    if k == 0 then first else pages[k - 1].next
  }

  /** The cursors these pages handed out. */
  function Handed(pages: seq<Page>): set<Cursor> {
    if pages == [] then {}
    else
      var next := pages[|pages| - 1].next;
      Handed(pages[..|pages| - 1]) + if next.Some? then {next.value} else {}
  }

  lemma {:induction false} HandedOut(pages: seq<Page>, c: Cursor) returns (i: nat)
    requires c in Handed(pages)
    ensures i < |pages| && pages[i].next == Some(c)
  {
    var n := |pages| - 1;
    if pages[n].next == Some(c) { return n; }
    i := HandedOut(pages[..n], c);
  }

  /** Page k is the answer to request k. */
  predicate Answered(server: Server, first: Option<Cursor>, pages: seq<Page>, k: nat)
    requires k < |pages|
  {
    server(k, Asked(first, pages, k)) == Ok(pages[k])
  }

  /** `pages` are the first answers of a walk: every request but the first follows a cursor, the
      one the page before handed out, and none is followed twice. */
  ghost predicate Walked(server: Server, first: Option<Cursor>, pages: seq<Page>) {
    && (forall k :: 0 <= k < |pages| ==> Answered(server, first, pages, k))
    && (forall k :: 0 <= k < |pages| - 1 ==> Followed(pages, k))
  }

  /** The cursor of page k is one, and none that came before it. */
  predicate Followed(pages: seq<Page>, k: nat)
    requires k < |pages|
  {
    pages[k].next.Some? && pages[k].next.value !in Handed(pages[..k])
  }

  /** Why a walk that has not reached the end of the list goes no further. */
  ghost predicate Stopped(pages: seq<Page>)
    requires pages != []
  {
    || |pages| >= MAX_TOOL_PAGES
    || |Concat(pages)| >= MAX_MERGED_TOOLS
    || (pages[|pages| - 1].next.Some? && pages[|pages| - 1].next.value in Handed(pages[..|pages| - 1]))
  }

  method MergedTools(server: Server, first: Option<Cursor>) returns (r: Result<Page, string>, ghost pages: seq<Page>)
    ensures Walked(server, first, pages) && |pages| <= MAX_TOOL_PAGES
    ensures |pages| > 1 ==> |Concat(pages[..|pages| - 1])| < MAX_MERGED_TOOLS
    ensures r.Ok? ==> pages != [] && r.value == Page(Concat(pages), None, pages[0].meta)
    ensures r.Ok? ==> pages[|pages| - 1].next == None || Stopped(pages)
    ensures r.Err? ==> |pages| < MAX_TOOL_PAGES && server(|pages|, Asked(first, pages, |pages|)) == Err(r.error)
    ensures r.Err? ==> pages == [] || (pages[|pages| - 1].next.Some? && !Stopped(pages))
  {
    pages := [];
    var answer := server(0, first);
    if answer.Err? { return Err(answer.error), pages; }
    pages := [answer.value];
    assert [] + pages == pages;
    var merged := answer.value.(next := None);
    var cursor := answer.value.next;
    var seen: set<Cursor> := {};
    var count := 1;
    while cursor.Some?
      invariant 1 <= count == |pages| <= MAX_TOOL_PAGES
      invariant Walked(server, first, pages)
      invariant |pages| > 1 ==> |Concat(pages[..|pages| - 1])| < MAX_MERGED_TOOLS
      invariant cursor == pages[|pages| - 1].next
      invariant seen == Handed(pages[..|pages| - 1])
      invariant merged == Page(Concat(pages), None, pages[0].meta)
      decreases MAX_TOOL_PAGES - count
    {
      if cursor.value in seen { break; }
      if count >= MAX_TOOL_PAGES { break; }
      if |merged.tools| >= MAX_MERGED_TOOLS { break; }
      ghost var before := pages;
      answer := server(count, cursor);
      if answer.Err? { return Err(answer.error), pages; }
      seen := seen + {cursor.value};
      pages := pages + [answer.value];
      OneMorePage(server, first, before, answer.value);
      merged := merged.(tools := merged.tools + answer.value.tools);
      cursor := answer.value.next;
      count := count + 1;
    }
    r := Ok(merged);
  }

  lemma OneMorePage(server: Server, first: Option<Cursor>, pages: seq<Page>, page: Page)
    requires Walked(server, first, pages) && pages != []
    requires Followed(pages, |pages| - 1) && server(|pages|, pages[|pages| - 1].next) == Ok(page)
    ensures Walked(server, first, pages + [page])
  {
    var more := pages + [page];
    forall k | 0 <= k < |more| ensures Answered(server, first, more, k) {
      if k < |pages| { assert Answered(server, first, pages, k); }
    }
    forall k | 0 <= k < |pages| ensures Followed(more, k) {
      assert Followed(pages, k) && more[..k] == pages[..k];
    }
  }

  // ---- a server that answers by the cursor alone ----

  type Listing = Option<Cursor> -> Page

  ghost predicate Serves(server: Server, listing: Listing) {
    forall k, c :: server(k, c) == Ok(listing(c))
  }

  /** Page k is what the listing has at its cursor. */
  predicate Listed(listing: Listing, first: Option<Cursor>, pages: seq<Page>, k: nat)
    requires k < |pages|
  {
    pages[k] == listing(Asked(first, pages, k))
  }

  /** `pages` is the whole list from `first` on. */
  ghost predicate WholeList(listing: Listing, first: Option<Cursor>, pages: seq<Page>) {
    && pages != [] && pages[|pages| - 1].next == None
    && (forall k :: 0 <= k < |pages| ==> Listed(listing, first, pages, k))
    && (forall k :: 0 <= k < |pages| - 1 ==> pages[k].next.Some?)
  }

  /** The walk follows the list page by page. */
  lemma {:induction false} WalkFollows(server: Server, listing: Listing, first: Option<Cursor>, whole: seq<Page>,
                                       pages: seq<Page>, k: nat)
    requires Serves(server, listing) && WholeList(listing, first, whole) && Walked(server, first, pages)
    requires k < |pages|
    ensures k < |whole| && pages[k] == whole[k]
    decreases k
  {
    if k > 0 {
      WalkFollows(server, listing, first, whole, pages, k - 1);
      assert Followed(pages, k - 1);
    }
    assert Answered(server, first, pages, k) && Listed(listing, first, whole, k);
  }

  /** In a list that ends no cursor comes twice: from the second time on it would repeat itself. */
  lemma {:induction false} SameTail(listing: Listing, first: Option<Cursor>, whole: seq<Page>, i: nat, j: nat, d: nat)
    requires WholeList(listing, first, whole) && i < j && j + d < |whole|
    requires Asked(first, whole, i) == Asked(first, whole, j)
    ensures whole[i + d] == whole[j + d]
    decreases d
  {
    if d > 0 { SameTail(listing, first, whole, i, j, d - 1); }
    assert Listed(listing, first, whole, i + d) && Listed(listing, first, whole, j + d);
  }

  lemma NoCursorTwice(listing: Listing, first: Option<Cursor>, whole: seq<Page>, i: nat, j: nat)
    requires WholeList(listing, first, whole) && i < j < |whole|
    ensures whole[i].next != whole[j].next
  {
    var last := |whole| - 1;
    var d := last - j;
    assert whole[i + d].next.Some? && whole[last].next == None;
    if d > 0 && whole[i].next == whole[j].next {
      SameTail(listing, first, whole, i + 1, j + 1, d - 1);
      assert false;
    }
  }

  /** A list within the bounds is merged whole, in order, and never mistaken for a circle. */
  method MergesTheWholeList(server: Server, listing: Listing, first: Option<Cursor>, ghost whole: seq<Page>)
    returns (r: Result<Page, string>)
    requires Serves(server, listing) && WholeList(listing, first, whole)
    requires |whole| <= MAX_TOOL_PAGES && |Concat(whole[..|whole| - 1])| < MAX_MERGED_TOOLS
    ensures r == Ok(Page(Concat(whole), None, whole[0].meta))
  {
    ghost var pages;
    r, pages := MergedTools(server, first);
    forall k | 0 <= k < |pages| ensures k < |whole| && pages[k] == whole[k] {
      WalkFollows(server, listing, first, whole, pages, k);
    }
    if pages != [] { assert |pages| - 1 < |whole|; }
    assert pages == whole[..|pages|];
    if r.Ok? && |pages| < |whole| { NotStopped(listing, first, whole, |pages|); }
    assert whole[..|whole|] == whole;
  }

  lemma NotStopped(listing: Listing, first: Option<Cursor>, whole: seq<Page>, n: nat)
    requires WholeList(listing, first, whole) && 0 < n < |whole|
    requires |whole| <= MAX_TOOL_PAGES && |Concat(whole[..|whole| - 1])| < MAX_MERGED_TOOLS
    ensures whole[..n][n - 1].next.Some? && !Stopped(whole[..n])
  {
    ConcatGrows(whole[..|whole| - 1], n);
    assert whole[..|whole| - 1][..n] == whole[..n];
    forall i | 0 <= i < n - 1 ensures whole[i].next != whole[n - 1].next {
      NoCursorTwice(listing, first, whole, i, n - 1);
    }
    var last := whole[n - 1].next;
    assert whole[..n][..n - 1] == whole[..n - 1];
    if last.value in Handed(whole[..n - 1]) {
      var i := HandedOut(whole[..n - 1], last.value);
      assert false;
    }
  }

  lemma {:induction false} ConcatGrows(pages: seq<Page>, n: nat)
    requires n <= |pages|
    ensures |Concat(pages[..n])| <= |Concat(pages)|
    decreases |pages|
  {
    if n < |pages| {
      ConcatGrows(pages[..|pages| - 1], n);
      assert pages[..|pages| - 1][..n] == pages[..n];
    } else {
      assert pages[..n] == pages;
    }
  }

  // ---- read off the pages ----

  lemma {:induction false} HandedExactly(pages: seq<Page>, c: Cursor)
    ensures c in Handed(pages) <==> exists i :: 0 <= i < |pages| && pages[i].next == Some(c)
  {
    if pages != [] {
      var n := |pages| - 1;
      HandedExactly(pages[..n], c);
      if i :| 0 <= i < n && pages[i].next == Some(c) { assert pages[..n][i].next == Some(c); }
      if i :| 0 <= i < n && pages[..n][i].next == Some(c) { assert pages[i].next == Some(c); }
    }
  }

  /** Whatever the server answers: every page of a walk but the last handed out a cursor, and no two of
      them the same. */
  lemma NoneFollowedTwice(server: Server, first: Option<Cursor>, pages: seq<Page>, i: nat, j: nat)
    requires Walked(server, first, pages) && i < j < |pages| - 1
    ensures pages[i].next.Some? && pages[j].next.Some? && pages[i].next != pages[j].next
  {
    assert Followed(pages, i) && Followed(pages, j);
    HandedExactly(pages[..j], pages[i].next.value);
    assert pages[..j][i] == pages[i];
  }

  /** A walk stops short at 64 pages, at 10000 tools, or at a cursor an earlier page handed out. */
  lemma StopsExactly(pages: seq<Page>)
    requires pages != []
    ensures Stopped(pages) <==>
              || |pages| >= 64 || |Concat(pages)| >= 10_000
              || (pages[|pages| - 1].next.Some?
                  && exists i :: 0 <= i < |pages| - 1 && pages[i].next == pages[|pages| - 1].next)
  {
    var n := |pages| - 1;
    if pages[n].next.Some? {
      HandedExactly(pages[..n], pages[n].next.value);
      forall i | 0 <= i < n ensures pages[..n][i] == pages[i] {}
      if i :| 0 <= i < n && pages[..n][i].next == Some(pages[n].next.value) { assert pages[i].next == pages[n].next; }
      if i :| 0 <= i < n && pages[i].next == pages[n].next {
        assert pages[..n][i].next == Some(pages[n].next.value);
      }
    }
  }

  /** The tools of pages in a row are those of each, in order. */
  lemma {:induction false} ConcatInOrder(a: seq<Page>, b: seq<Page>)
    ensures Concat(a + b) == Concat(a) + Concat(b)
    decreases |b|
  {
    if b == [] {
      assert a + b == a;
    } else {
      var k := |b| - 1;
      assert (a + b)[..|a + b| - 1] == a + b[..k];
      ConcatInOrder(a, b[..k]);
    }
  }

  lemma ConcatOne(page: Page)
    ensures Concat([page]) == page.tools
  {
    assert [page][..0] == [] && [] + page.tools == page.tools;
  }
}
