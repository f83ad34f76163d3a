/**
  The markets service: what a fetched page contributes to the shared cache and
  to the top-id index, and how top markets are read back
  (coingecko_markets/service.go, coingecko_markets/cache_utils.go).
*/
module Markets {
  import opened Wrappers
  import opened Sequences
  import opened Tokens
  import opened TopIds
  import opened TierConfig
  import opened TierSlices
  import opened CacheKeys
  import opened SharedCache

  const DEFAULT_CHUNK_SIZE := 250

  datatype CacheValue = TokenValue(token: Token) | PageValue(data: seq<Token>) | IdsValue(ids: seq<string>)

  type Cache = map<string, Entry<CacheValue>>

  datatype CacheStatus = Full | Partial | Miss

  datatype MarketsError = InvalidPageRange | Panic

  // ---------- what is cached ----------

  /** The record of an id is stored under the id's key, if there is one. */
  predicate HoldsToken(m: map<string, CacheValue>, r: Option<Token>, id: string) {
    match r
    case None => TokenKey(id) !in m
    case Some(token) => TokenKey(id) in m && m[TokenKey(id)] == TokenValue(token)
  }

  ghost predicate OnlyTokenKeys(m: map<string, CacheValue>) {
    forall k :: k in m ==> InFamily(k, Tokens)
  }

  /** parseTokensData: every record with an id under its own key, later records overriding earlier ones. */
  method ParseTokens(data: seq<Token>) returns (m: map<string, CacheValue>)
    ensures OnlyTokenKeys(m)
    ensures forall id :: HoldsToken(m, LastRecord(data, id), id)
  {
    m := map[];
    for i := 0 to |data|
      invariant OnlyTokenKeys(m)
      invariant forall id :: HoldsToken(m, LastRecord(data[..i], id), id)
    {
      assert data[..i + 1][..i] == data[..i];
      if data[i].HasId() {
        forall id
          ensures TokenKey(id) == TokenKey(data[i].id) ==> id == data[i].id
        {
          TokenKeyInjective(id, data[i].id);
        }
        assert InFamily(TokenKey(data[i].id), Tokens);
        m := m[TokenKey(data[i].id) := TokenValue(data[i])];
      }
    }
    assert data[..|data|] == data;
  }

  /** parsePagesData: each page's last data under its page key, and its last ids, if any, under a second key. */
  method ParsePages(pagesData: seq<PageData>) returns (m: map<string, CacheValue>)
    ensures OnlyPageKeys(m)
    ensures HoldsPages(m, pagesData)
  {
    m := map[];
    for i := 0 to |pagesData|
      invariant OnlyPageKeys(m) && HoldsPages(m, pagesData[..i])
    {
      ghost var before := m;
      m := ParsePage(m, pagesData[i]);
      HoldsPagesStep(before, m, pagesData[..i], pagesData[i]);
      PrefixGrows(pagesData, i);
    }
    assert pagesData[..|pagesData|] == pagesData;
  }

  /** One page of the loop. */
  method ParsePage(before: map<string, CacheValue>, pageData: PageData) returns (m: map<string, CacheValue>)
    requires OnlyPageKeys(before)
    ensures OnlyPageKeys(m)
    ensures AddsPage(before, m, pageData)
  {
    m := before[PageKey(pageData.page) := PageValue(pageData.data)];
    assert InFamily(PageKey(pageData.page), Pages);
    PageKeysApart(pageData.page, pageData.page);
    var tokenIDs := ExtractTokenIDs(pageData.data);
    if |tokenIDs| > 0 {
      assert InFamily(PageIdsKey(pageData.page), PageIds);
      m := m[PageIdsKey(pageData.page) := IdsValue(tokenIDs)];
    }
  }

  /** The page is stored, its ids are if there are any, and nothing else changes. */
  ghost predicate AddsPage(before: map<string, CacheValue>, m: map<string, CacheValue>, pageData: PageData) {
    var ids := ExtractIds(pageData.data);
    && PageKey(pageData.page) in m && m[PageKey(pageData.page)] == PageValue(pageData.data)
    && (if ids == [] then SameEntry(before, m, PageIdsKey(pageData.page))
        else PageIdsKey(pageData.page) in m && m[PageIdsKey(pageData.page)] == IdsValue(ids))
    && forall k :: k != PageKey(pageData.page) && k != PageIdsKey(pageData.page) ==> SameEntry(before, m, k)
  }

  /** The key has the same value in both maps, or in neither. */
  predicate SameEntry<V(==)>(before: map<string, V>, after: map<string, V>, k: string) {
    (k in after <==> k in before) && (k in after ==> after[k] == before[k])
  }

  /** The ids of the last entry for page p that has any. */
  function LastIds(pagesData: seq<PageData>, p: int): seq<string>
  {
    if pagesData == [] then []
    else
      var last := pagesData[|pagesData| - 1];
      if last.page == p && ExtractIds(last.data) != [] then ExtractIds(last.data)
      else LastIds(pagesData[..|pagesData| - 1], p)
  }

  predicate HasIdsOf(pageData: PageData, p: int) {
    pageData.page == p && ExtractIds(pageData.data) != []
  }

  /** No later entry for the page has any ids. */
  lemma {:induction false} LastIdsMeans(pagesData: seq<PageData>, p: int) returns (i: int)
    ensures -1 <= i < |pagesData|
    ensures i >= 0 ==> HasIdsOf(pagesData[i], p) && LastIds(pagesData, p) == ExtractIds(pagesData[i].data)
    ensures i < 0 ==> LastIds(pagesData, p) == []
    ensures forall j :: i < j < |pagesData| ==> !HasIdsOf(pagesData[j], p)
  {
    if pagesData == [] {
      i := -1;
    } else if HasIdsOf(pagesData[|pagesData| - 1], p) {
      i := |pagesData| - 1;
    } else {
      i := LastIdsMeans(pagesData[..|pagesData| - 1], p);
    }
  }

  ghost predicate HoldsPage(m: map<string, CacheValue>, pagesData: seq<PageData>, p: int) {
    var i, ids := LastPage(pagesData, p), LastIds(pagesData, p);
    && (if i < 0 then PageKey(p) !in m
        else PageKey(p) in m && m[PageKey(p)] == PageValue(pagesData[i].data))
    && (if ids == [] then PageIdsKey(p) !in m
        else PageIdsKey(p) in m && m[PageIdsKey(p)] == IdsValue(ids))
  }

  ghost predicate HoldsPages(m: map<string, CacheValue>, pagesData: seq<PageData>) {
    forall p :: HoldsPage(m, pagesData, p)
  }

  ghost predicate OnlyPageKeys(m: map<string, CacheValue>) {
    forall k :: k in m ==> InFamily(k, Pages) || InFamily(k, PageIds)
  }

  lemma HoldsPagesStep(before: map<string, CacheValue>, m: map<string, CacheValue>, pagesData: seq<PageData>,
                       pageData: PageData)
    requires HoldsPages(before, pagesData) && AddsPage(before, m, pageData)
    ensures HoldsPages(m, pagesData + [pageData])
  {
    forall p: int
      ensures HoldsPage(m, pagesData + [pageData], p)
    {
      HoldsPageStep(before, m, pagesData, pageData, p);
    }
  }

  lemma PageKeysApart(p: int, q: int)
    ensures PageKey(p) != PageIdsKey(q)
  {
    assert InFamily(PageKey(p), Pages);
    if PageKey(p) == PageIdsKey(q) {
      assert InFamily(PageKey(p), PageIds);
      FamiliesDisjoint(PageKey(p), Pages, PageIds);
    }
  }

  lemma HoldsPageStep(before: map<string, CacheValue>, m: map<string, CacheValue>, pagesData: seq<PageData>,
                      pageData: PageData, p: int)
    requires HoldsPage(before, pagesData, p) && AddsPage(before, m, pageData)
    ensures HoldsPage(m, pagesData + [pageData], p)
  {
    var next := pagesData + [pageData];
    assert next[..|next| - 1] == pagesData;
    if p != pageData.page {
      PageKeysApart(p, pageData.page);
      PageKeysApart(pageData.page, p);
      PageKeyInjective(p, pageData.page);
      assert SameEntry(before, m, PageKey(p)) && SameEntry(before, m, PageIdsKey(p));
    }
  }

  // ---------- what is read back ----------

  ghost predicate LivePage(cache: Cache, p: int, now: int) {
    Has(cache, PageKey(p), now) && cache[PageKey(p)].value.PageValue?
  }

  /** The records of the live pages from..to, one page after the other, without those that do not parse. */
  ghost function RecordsOf(cache: Cache, from: int, to: int, now: int): seq<Token>
    decreases to - from
  {
    if to < from then []
    else RecordsOf(cache, from, to - 1, now)
         + if LivePage(cache, to, now) then Parsed(cache[PageKey(to)].value.data) else []
  }

  /** Integer division of the source's language, which truncates toward zero. */
  function GoDiv(a: int, b: int): int
    requires b != 0
  {
    if a >= 0 then (if b > 0 then a / b else -(a / -b))
    else (if b > 0 then -(-a / b) else -a / -b)
  }

  /** The least number of pages of this size that hold the limit. */
  predicate Holds(pages: int, perPage: int, limit: int) {
    pages > 0 && (pages - 1) * perPage < limit <= pages * perPage
  }

  method PagesFor(limit: int, perPage: int) returns (pageTo: int)
    requires perPage != 0
    ensures limit > 0 && perPage > 0 ==> Holds(pageTo, perPage, limit)
  {
    pageTo := GoDiv(limit + perPage - 1, perPage);
    if limit > 0 && perPage > 0 {
      CeilPages(limit, perPage);
    }
    if pageTo == 0 {
      pageTo := 1;
    }
  }

  lemma CeilPages(limit: int, perPage: int)
    requires limit > 0 && perPage > 0
    ensures Holds(GoDiv(limit + perPage - 1, perPage), perPage, limit)
  {
    var x := limit + perPage - 1;
    var q := x / perPage;
    assert x == perPage * q + x % perPage;
    assert (q - 1) * perPage == perPage * q - perPage;
  }

  /** A page of the batch is stored with its last data, and its last ids; any other page's entries are untouched. */
  ghost predicate PageAfter(before: Cache, after: Cache, pagesData: seq<PageData>, expires: Option<int>, p: int) {
    var i, ids := LastPage(pagesData, p), LastIds(pagesData, p);
    && (if i < 0 then SameEntry(before, after, PageKey(p))
        else PageKey(p) in after && after[PageKey(p)] == Entry(PageValue(pagesData[i].data), expires))
    && (if ids == [] then SameEntry(before, after, PageIdsKey(p))
        else PageIdsKey(p) in after && after[PageIdsKey(p)] == Entry(IdsValue(ids), expires))
  }

  /** A record of the batch is cached under its own key; the entry of any other id is untouched. */
  predicate TokenAfter(before: Cache, after: Cache, r: Option<Token>, expires: Option<int>, id: string) {
    match r
    case None => SameEntry(before, after, TokenKey(id))
    case Some(token) => TokenKey(id) in after && after[TokenKey(id)] == Entry(TokenValue(token), expires)
  }

  class MarketsService {
    const ttl: int
    const defaultTTL: int
    const tiers: seq<Tier>
    /** The configured normalisation of per_page, if any. */
    const perPageOverride: Option<int>

    var cache: Cache
    const topIdsManager: TopIdsManager

    /** The page cache and the index hold the same pages with the same ids. */
    ghost predicate Valid()
      reads this, topIdsManager
    {
      topIdsManager.Valid() && forall p :: Agrees(p)
    }

    ghost predicate Agrees(p: int)
      reads this, topIdsManager
    {
      && (PageKey(p) in cache <==> p in topIdsManager.pageToIds)
      && (PageKey(p) in cache ==>
            cache[PageKey(p)].value.PageValue?
            && ExtractIds(cache[PageKey(p)].value.data) == topIdsManager.pageToIds[p])
    }

    constructor (ttl: int, defaultTTL: int, tiers: seq<Tier>, perPageOverride: Option<int>)
      ensures Valid() && cache == map[] && fresh(topIdsManager)
      ensures this.ttl == ttl && this.defaultTTL == defaultTTL && this.tiers == tiers
      ensures this.perPageOverride == perPageOverride
    {
      this.ttl, this.defaultTTL, this.tiers, this.perPageOverride := ttl, defaultTTL, tiers, perPageOverride;
      cache := map[];
      topIdsManager := new TopIdsManager();
    }

    method Set(m: map<string, CacheValue>, now: int)
      modifies this
      ensures cache == old(cache) + map k | k in m :: Entry(m[k], Expiry(ttl, defaultTTL, now))
    {
      cache := cache + map k | k in m :: Entry(m[k], Expiry(ttl, defaultTTL, now));
    }

    /** cacheTokensByID: the last record of each id, and no key outside the token family. */
    method CacheTokensByID(data: seq<Token>, now: int)
      modifies this
      ensures forall k :: !InFamily(k, Tokens) ==> SameEntry(old(cache), cache, k)
      ensures forall id :: TokenAfter(old(cache), cache, LastRecord(data, id), Expiry(ttl, defaultTTL, now), id)
    {
      var m := ParseTokens(data);
      Set(m, now);
      forall id: string
        ensures TokenAfter(old(cache), cache, LastRecord(data, id), Expiry(ttl, defaultTTL, now), id)
      {
        assert HoldsToken(m, LastRecord(data, id), id);
      }
    }

    /** cacheTokensPage: the pages and their ids, and no key outside the two page families. */
    method CacheTokensPage(pagesData: seq<PageData>, now: int)
      modifies this
      ensures forall k :: !InFamily(k, Pages) && !InFamily(k, PageIds) ==> SameEntry(old(cache), cache, k)
      ensures forall p :: PageAfter(old(cache), cache, pagesData, Expiry(ttl, defaultTTL, now), p)
    {
      var m := ParsePages(pagesData);
      Set(m, now);
      forall p: int
        ensures PageAfter(old(cache), cache, pagesData, Expiry(ttl, defaultTTL, now), p)
      {
        assert HoldsPage(m, pagesData, p);
      }
    }

    /**
      handleTierPagesUpdate up to its notification: tokens by id, then pages,
      then the index.
    */
    method HandleTierPagesUpdate(pagesData: seq<PageData>, now: int)
      requires Valid()
      modifies this, topIdsManager
      ensures Valid()
      ensures topIdsManager.pageToIds == WithPages(old(topIdsManager.pageToIds), pagesData)
      ensures forall p :: PageAfter(old(cache), cache, pagesData, Expiry(ttl, defaultTTL, now), p)
      ensures forall id :: TokenAfter(old(cache), cache, LastInPages(pagesData, |pagesData|, id),
                                      Expiry(ttl, defaultTTL, now), id)
    {
      ghost var before := cache;
      for i := 0 to |pagesData|
        invariant topIdsManager.Valid() && topIdsManager.pageToIds == old(topIdsManager.pageToIds)
        invariant forall k :: !InFamily(k, Tokens) ==> SameEntry(before, cache, k)
        invariant forall id :: TokenAfter(before, cache, LastInPages(pagesData, i, id),
                                          Expiry(ttl, defaultTTL, now), id)
      {
        ghost var c, n := cache, i + 1;
        CacheTokensByID(pagesData[i].data, now);
        forall id: string
          ensures TokenAfter(before, cache, LastInPages(pagesData, n, id), Expiry(ttl, defaultTTL, now), id)
        {
          assert TokenAfter(before, c, LastInPages(pagesData, i, id), Expiry(ttl, defaultTTL, now), id);
          assert TokenAfter(c, cache, LastRecord(pagesData[i].data, id), Expiry(ttl, defaultTTL, now), id);
        }
      }
      ghost var tokens := cache;
      CacheTokensPage(pagesData, now);
      forall p: int
        ensures PageAfter(before, cache, pagesData, Expiry(ttl, defaultTTL, now), p)
      {
        PageIsNoToken(p);
        assert PageAfter(tokens, cache, pagesData, Expiry(ttl, defaultTTL, now), p);
      }
      forall id: string
        ensures SameEntry(tokens, cache, TokenKey(id))
      {
        TokenIsNoPage(id);
      }
      topIdsManager.UpdatePagesFromPageData(pagesData);
      forall p: int
        ensures Agrees(p)
      {
        assert PageAfter(before, cache, pagesData, Expiry(ttl, defaultTTL, now), p);
        WithPagesAt(old(topIdsManager.pageToIds), pagesData, p);
        assert old(Agrees(p));
      }
    }

    /** MarketsByPage: the live pages of the range, from the cache alone. */
    method MarketsByPage(pageFrom: int, pageTo: int, now: int)
      returns (r: Result<seq<Token>, MarketsError>, status: CacheStatus)
      requires Valid()
      ensures r.Err? <==> pageFrom <= 0 || pageFrom > pageTo
      ensures r.Err? ==> r.error.InvalidPageRange? && status.Miss?
      ensures r.Ok? ==> r.value == RecordsOf(cache, pageFrom, pageTo, now)
      ensures r.Ok? ==> (status.Full? <==> AllLive(cache, pageFrom, pageTo, now))
      ensures r.Ok? ==> (status.Miss? <==> NoneLive(cache, pageFrom, pageTo, now))
    {
      if pageFrom <= 0 || pageTo <= 0 || pageFrom > pageTo {
        return Err(InvalidPageRange), Miss;
      }
      forall p: int
        ensures PageKey(p) in cache ==> cache[PageKey(p)].value.PageValue?
      {
        assert Agrees(p);
      }
      var records;
      records, status := ReadPages(cache, pageFrom, pageTo, now);
      return Ok(records), status;
    }

    /** The page size after the configured normalisation. */
    function PerPage(): int {
      if perPageOverride.Some? then perPageOverride.value else DEFAULT_CHUNK_SIZE
    }

    /** The default when no tier loads a page, otherwise the last page any tier loads times the page size. */
    ghost predicate IsMaxTokenLimit(limit: int) {
      if forall i :: 0 <= i < |tiers| ==> tiers[i].to <= 0 then limit == DEFAULT_CHUNK_SIZE
      else exists m :: IsTierLimit(tiers, m, DEFAULT_CHUNK_SIZE) && limit == m * PerPage()
    }

    method GetMaxTokenLimit() returns (limit: int)
      ensures IsMaxTokenLimit(limit)
      ensures PerPage() > 0 ==> limit > 0
    {
      var maxPageTo := LargestTo(tiers);
      if maxPageTo == 0 {
        return DEFAULT_CHUNK_SIZE;
      }
      assert IsTierLimit(tiers, maxPageTo, DEFAULT_CHUNK_SIZE);
      if PerPage() > 0 {
        ProductPositive(maxPageTo, PerPage());
      }
      return maxPageTo * PerPage();
    }

    /** Every page of the range is either unknown or cached, unexpired, and made of records with an id. */
    ghost predicate Servable(pageTo: int, now: int)
      reads this, topIdsManager
    {
      forall p :: 1 <= p <= pageTo && p in topIdsManager.pageToIds ==>
                    LivePage(cache, p, now) && AllHaveIds(cache[PageKey(p)].value.data)
    }

    /**
      TopMarkets: `clamped` is the limit after the default and the cap `maxLimit`,
      `pageTo` the number of pages it needs.  A page size of zero divides by zero.
    */
    method TopMarkets(limit: int, now: int)
      returns (r: Result<seq<Token>, MarketsError>, ghost clamped: int, ghost maxLimit: int, ghost pageTo: int)
      requires Valid()
      ensures IsMaxTokenLimit(maxLimit) && clamped == Min(if limit <= 0 then 100 else limit, maxLimit)
      ensures PerPage() == if perPageOverride.Some? then perPageOverride.value else 250
      ensures PerPage() == 0 <==> r == Err(Panic) && PerPage() >= 0
      ensures PerPage() > 0 ==>
                && 0 < clamped && Holds(pageTo, PerPage(), clamped)
                && r == Ok(Prefix(RecordsOf(cache, 1, pageTo, now), clamped))
      ensures PerPage() > 0 && Servable(pageTo, now) ==>
                && |r.value| == Min(clamped, |ConcatPages(topIdsManager.pageToIds, pageTo)|)
                && Dedup(ExtractIds(r.value)) <= TopIdsOf(topIdsManager.pageToIds)
    {
      var l := if limit <= 0 then 100 else limit;
      var cap := GetMaxTokenLimit();
      if l > cap {
        l := cap;
      }
      clamped, maxLimit, pageTo := l, cap, 0;
      var perPage := PerPage();
      if perPage == 0 {
        return Err(Panic), clamped, maxLimit, pageTo;
      }
      var to := PagesFor(l, perPage);
      pageTo := to;
      var response, status := MarketsByPage(1, to, now);
      if response.Err? {
        return response, clamped, maxLimit, pageTo;
      }
      var records := response.value;
      if |records| > l {
        if l < 0 {
          return Err(Panic), clamped, maxLimit, pageTo;
        }
        records := records[..l];
      }
      if perPage > 0 && Servable(to, now) {
        TopRecords(to, now, l);
      }
      return Ok(records), clamped, maxLimit, pageTo;
    }

    method TopMarketIds(limit: int) returns (ids: seq<string>)
      requires Valid()
      modifies topIdsManager
      ensures Valid() && topIdsManager.pageToIds == old(topIdsManager.pageToIds)
      ensures ids == Limited(TopIdsOf(topIdsManager.pageToIds), if limit <= 0 then DEFAULT_CHUNK_SIZE else limit)
      ensures ids <= TopIdsOf(topIdsManager.pageToIds)
      ensures |ids| == Min(if limit <= 0 then DEFAULT_CHUNK_SIZE else limit, |TopIdsOf(topIdsManager.pageToIds)|)
    {
      var l := if limit <= 0 then DEFAULT_CHUNK_SIZE else limit;
      ids := topIdsManager.GetTopIds(l);
      assert forall p :: old(Agrees(p)) ==> Agrees(p);
    }

    /** Servable pages answer one record per index entry, with the same ids in the same order. */
    lemma {:induction false} RecordsMatchIndex(pageTo: int, now: int)
      requires Valid() && Servable(pageTo, now)
      ensures var records := RecordsOf(cache, 1, pageTo, now);
              && AllHaveIds(records)
              && ExtractIds(records) == ConcatPages(topIdsManager.pageToIds, pageTo)
      decreases pageTo
    {
      if pageTo >= 1 {
        RecordsMatchIndex(pageTo - 1, now);
        assert Agrees(pageTo);
        var before := RecordsOf(cache, 1, pageTo - 1, now);
        if pageTo in topIdsManager.pageToIds {
          var data := cache[PageKey(pageTo)].value.data;
          WellFormedPage(data);
          ExtractIdsConcat(before, data);
        } else {
          assert before + [] == before;
        }
      }
    }

    lemma TopRecords(pageTo: int, now: int, n: int)
      requires Valid() && Servable(pageTo, now) && n > 0
      ensures var top := Prefix(RecordsOf(cache, 1, pageTo, now), n);
              && |top| == Min(n, |ConcatPages(topIdsManager.pageToIds, pageTo)|)
              && Dedup(ExtractIds(top)) <= TopIdsOf(topIdsManager.pageToIds)
    {
      var records := RecordsOf(cache, 1, pageTo, now);
      RecordsMatchIndex(pageTo, now);
      PrefixIds(records, n);
      ConcatWithinIndex(topIdsManager.pageToIds, pageTo);
      var all := ConcatPages(topIdsManager.pageToIds, Highest(topIdsManager.pageToIds));
      assert ExtractIds(Prefix(records, n)) <= all;
      var k := |Prefix(records, n)|;
      assert all[..k] == ExtractIds(Prefix(records, n));
      DedupPrefix(all, k);
    }
  }

  lemma PrefixIds(records: seq<Token>, n: nat)
    requires AllHaveIds(records)
    ensures |ExtractIds(records)| == |records| && |ExtractIds(Prefix(records, n))| == |Prefix(records, n)|
    ensures ExtractIds(Prefix(records, n)) <= ExtractIds(records)
  {
    var top := Prefix(records, n);
    assert records == top + records[|top|..];
    ExtractIdsConcat(top, records[|top|..]);
    WellFormedPage(records);
    WellFormedPage(top);
  }

  /** The ids of the first pages begin the ids of all pages. */
  lemma ConcatWithinIndex(pages: TopIds.Pages, pageTo: int)
    ensures ConcatPages(pages, pageTo) <= ConcatPages(pages, Highest(pages))
  {
    var big := Max(pageTo, Highest(pages));
    ConcatPrefix(pages, pageTo, big);
    ConcatBeyond(pages, big);
  }

  ghost predicate AllLive(cache: Cache, from: int, to: int, now: int) {
    forall p :: from <= p <= to ==> LivePage(cache, p, now)
  }

  ghost predicate NoneLive(cache: Cache, from: int, to: int, now: int) {
    forall p :: from <= p <= to ==> !LivePage(cache, p, now)
  }

  lemma OneMorePage(cache: Cache, from: int, page: int, now: int)
    requires from <= page
    requires PageKey(page) in cache ==> cache[PageKey(page)].value.PageValue?
    ensures LivePage(cache, page, now) <==> Has(cache, PageKey(page), now)
    ensures AllLive(cache, from, page, now) <==> AllLive(cache, from, page - 1, now) && LivePage(cache, page, now)
    ensures NoneLive(cache, from, page, now) <==> NoneLive(cache, from, page - 1, now) && !LivePage(cache, page, now)
    ensures LivePage(cache, page, now) ==>
              RecordsOf(cache, from, page, now)
              == RecordsOf(cache, from, page - 1, now) + Parsed(cache[PageKey(page)].value.data)
    ensures !LivePage(cache, page, now) ==> RecordsOf(cache, from, page, now) == RecordsOf(cache, from, page - 1, now)
  {
    assert RecordsOf(cache, from, page - 1, now) + [] == RecordsOf(cache, from, page - 1, now);
  }

  /** The loop over the pages of a range. */
  method ReadPages(cache: Cache, from: int, to: int, now: int) returns (records: seq<Token>, status: CacheStatus)
    requires from <= to
    requires forall p :: PageKey(p) in cache ==> cache[PageKey(p)].value.PageValue?
    ensures records == RecordsOf(cache, from, to, now)
    ensures status.Full? <==> AllLive(cache, from, to, now)
    ensures status.Miss? <==> NoneLive(cache, from, to, now)
  {
    records := [];
    var found, missing := 0, 0;
    var page := from;
    while page <= to
      invariant from <= page <= to + 1
      invariant records == RecordsOf(cache, from, page - 1, now)
      invariant found >= 0 && missing >= 0 && found + missing == page - from
      invariant found == 0 <==> NoneLive(cache, from, page - 1, now)
      invariant missing == 0 <==> AllLive(cache, from, page - 1, now)
    {
      OneMorePage(cache, from, page, now);
      var live, parsed := ReadPage(cache, page, now);
      if live {
        found := found + 1;
        records := records + parsed;
      } else {
        missing := missing + 1;
      }
      page := page + 1;
    }
    status := if missing == 0 then Full else if found > 0 then Partial else Miss;
  }

  method ReadPage(cache: Cache, page: int, now: int) returns (live: bool, parsed: seq<Token>)
    requires PageKey(page) in cache ==> cache[PageKey(page)].value.PageValue?
    ensures live <==> LivePage(cache, page, now)
    ensures live ==> parsed == Parsed(cache[PageKey(page)].value.data)
  {
    live, parsed := Has(cache, PageKey(page), now), [];
    if live {
      parsed := ParseRecords(cache[PageKey(page)].value.data);
    }
  }

  /** json.Unmarshal of every record of a page; those that fail are skipped. */
  method ParseRecords(data: seq<Token>) returns (parsed: seq<Token>)
    ensures parsed == Parsed(data)
  {
    parsed := [];
    for i := 0 to |data|
      invariant parsed == Parsed(data[..i])
    {
      assert data[..i + 1][..i] == data[..i];
      if data[i].Parses() {
        parsed := parsed + [data[i]];
      }
    }
    assert data[..|data|] == data;
  }

  function Prefix<T>(s: seq<T>, n: int): seq<T>
    requires n >= 0
  {
    if n < |s| then s[..n] else s
  }

  lemma ProductPositive(a: int, b: int)
    requires a > 0 && b > 0
    ensures a * b > 0
  {
  }

  lemma PageIsNoToken(p: int)
    ensures !InFamily(PageKey(p), Tokens) && !InFamily(PageIdsKey(p), Tokens)
  {
    assert InFamily(PageKey(p), Pages) && InFamily(PageIdsKey(p), PageIds);
    if InFamily(PageKey(p), Tokens) {
      FamiliesDisjoint(PageKey(p), Pages, Tokens);
    }
    if InFamily(PageIdsKey(p), Tokens) {
      FamiliesDisjoint(PageIdsKey(p), PageIds, Tokens);
    }
  }

  lemma TokenIsNoPage(id: string)
    ensures !InFamily(TokenKey(id), Pages) && !InFamily(TokenKey(id), PageIds)
  {
    assert InFamily(TokenKey(id), Tokens);
    if InFamily(TokenKey(id), Pages) {
      FamiliesDisjoint(TokenKey(id), Pages, Tokens);
    }
    if InFamily(TokenKey(id), PageIds) {
      FamiliesDisjoint(TokenKey(id), PageIds, Tokens);
    }
  }
}
