/**
  Overlapping calls of handleTierPagesUpdate (coingecko_markets/service.go).

  The markets updater calls the handler for each fetched page and once more for
  the whole tier, each time in a goroutine of its own.  A call caches its pages
  one by one and then updates the index under the index's lock, so the writes of
  several calls may come in any order.
*/
module PageWrites {
  import opened Tokens
  import opened TopIds

  datatype Write = Cached(page: int, data: seq<Token>) | Indexed(pagesData: seq<PageData>)

  type PageCache = map<int, seq<Token>>

  function CacheAfter(ws: seq<Write>): PageCache {
    if ws == [] then map[]
    else
      var n := |ws| - 1;
      match ws[n]
      case Cached(page, data) => CacheAfter(ws[..n])[page := data]
      case Indexed(_) => CacheAfter(ws[..n])
  }

  function IndexAfter(ws: seq<Write>): Pages {
    if ws == [] then map[]
    else
      var n := |ws| - 1;
      match ws[n]
      case Cached(_, _) => IndexAfter(ws[..n])
      case Indexed(pagesData) => WithPages(IndexAfter(ws[..n]), pagesData)
  }

  /** The ids that a write to the index gives page p. */
  function IndexedIds(w: Write, p: int): seq<string>
    requires w.Indexed? && LastPage(w.pagesData, p) >= 0
  {
    ExtractIds(w.pagesData[LastPage(w.pagesData, p)].data)
  }

  predicate Caches(w: Write, p: int) {
    w.Cached? && w.page == p
  }

  predicate Indexes(w: Write, p: int) {
    w.Indexed? && LastPage(w.pagesData, p) >= 0
  }

  /** The last write of page p to the cache, or -1. */
  function LastCached(ws: seq<Write>, p: int): (i: int)
    ensures -1 <= i < |ws| && (i >= 0 ==> Caches(ws[i], p))
    ensures forall k :: i < k < |ws| ==> !Caches(ws[k], p)
  {
    if ws == [] then -1
    else if Caches(ws[|ws| - 1], p) then |ws| - 1
    else LastCached(ws[..|ws| - 1], p)
  }

  /** The last write of page p to the index, or -1. */
  function LastIndexed(ws: seq<Write>, p: int): (i: int)
    ensures -1 <= i < |ws| && (i >= 0 ==> Indexes(ws[i], p))
    ensures forall k :: i < k < |ws| ==> !Indexes(ws[k], p)
  {
    if ws == [] then -1
    else if Indexes(ws[|ws| - 1], p) then |ws| - 1
    else LastIndexed(ws[..|ws| - 1], p)
  }

  lemma {:induction false} CacheHolds(ws: seq<Write>, p: int)
    ensures var i := LastCached(ws, p);
            (p in CacheAfter(ws) <==> i >= 0) && (i >= 0 ==> CacheAfter(ws)[p] == ws[i].data)
  {
    if ws != [] {
      CacheHolds(ws[..|ws| - 1], p);
    }
  }

  lemma {:induction false} IndexHolds(ws: seq<Write>, p: int)
    ensures var i := LastIndexed(ws, p);
            (p in IndexAfter(ws) <==> i >= 0) && (i >= 0 ==> IndexAfter(ws)[p] == IndexedIds(ws[i], p))
  {
    if ws != [] {
      var n := |ws| - 1;
      IndexHolds(ws[..n], p);
      if ws[n].Indexed? {
        WithPagesAt(IndexAfter(ws[..n]), ws[n].pagesData, p);
      }
    }
  }

  /** The page cache and the index hold the page with the same ids, or both do not hold it. */
  predicate Agrees(cache: PageCache, pages: Pages, p: int) {
    (p in cache <==> p in pages) && (p in cache ==> ExtractIds(cache[p]) == pages[p])
  }

  /**
    After any overlapping calls, cache and index agree on a page exactly when the
    last write of the page to the one and the last write to the other give it the
    same ids, or neither was ever written.
  */
  lemma AgreesExactly(ws: seq<Write>, p: int)
    ensures Agrees(CacheAfter(ws), IndexAfter(ws), p) <==>
              var i, j := LastCached(ws, p), LastIndexed(ws, p);
              (i < 0 && j < 0) || (i >= 0 && j >= 0 && ExtractIds(ws[i].data) == IndexedIds(ws[j], p))
  {
    CacheHolds(ws, p);
    IndexHolds(ws, p);
  }

  /** From write number n on, the writes are those of one call: its pages in any order, then the index. */
  ghost predicate IsCall(ws: seq<Write>, n: nat, pagesData: seq<PageData>) {
    && n < |ws| && ws[|ws| - 1] == Indexed(pagesData)
    && (forall i :: n <= i < |ws| - 1 ==> CachesPageOf(ws[i], pagesData))
    && (forall p :: LastPage(pagesData, p) >= 0 ==> CachesSince(ws, n, p))
  }

  predicate CachesPageOf(w: Write, pagesData: seq<PageData>) {
    w.Cached? && LastPage(pagesData, w.page) >= 0 && w.data == pagesData[LastPage(pagesData, w.page)].data
  }

  ghost predicate CachesSince(ws: seq<Write>, n: nat, p: int) {
    exists i :: n <= i < |ws| && Caches(ws[i], p)
  }

  /** A call that no other overlaps leaves its pages in agreement, whatever came before. */
  lemma UndisturbedCallAgrees(ws: seq<Write>, n: nat, pagesData: seq<PageData>, p: int)
    requires IsCall(ws, n, pagesData) && LastPage(pagesData, p) >= 0
    ensures Agrees(CacheAfter(ws), IndexAfter(ws), p)
  {
    LastOfCall(ws, n, pagesData, p);
    AgreesExactly(ws, p);
  }

  lemma LastOfCall(ws: seq<Write>, n: nat, pagesData: seq<PageData>, p: int)
    requires IsCall(ws, n, pagesData) && LastPage(pagesData, p) >= 0
    ensures LastIndexed(ws, p) == |ws| - 1 && LastCached(ws, p) >= 0
    ensures ws[LastCached(ws, p)].data == pagesData[LastPage(pagesData, p)].data
  {
    assert Indexes(ws[|ws| - 1], p);
    assert CachesSince(ws, n, p);
    var k :| n <= k < |ws| && Caches(ws[k], p);
    assert CachesPageOf(ws[LastCached(ws, p)], pagesData);
  }

  /** Two calls for one page that overlap the wrong way: one's data stays in the cache, the other's in the index. */
  lemma OverlapDisagrees(p: int, a: seq<Token>, b: seq<Token>)
    requires ExtractIds(a) != ExtractIds(b)
    ensures var ws := [Cached(p, b), Cached(p, a), Indexed([PageData(p, a)]), Indexed([PageData(p, b)])];
            !Agrees(CacheAfter(ws), IndexAfter(ws), p)
  {
    var ws := [Cached(p, b), Cached(p, a), Indexed([PageData(p, a)]), Indexed([PageData(p, b)])];
    assert LastPage([PageData(p, b)], p) == 0;
    assert Indexes(ws[3], p) && Caches(ws[1], p);
    AgreesExactly(ws, p);
  }
}
