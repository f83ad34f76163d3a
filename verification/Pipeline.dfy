/**
  From fetched market pages to the ids that each price tier fetches, end to end.

  The markets service publishes pages into the top-id index and emits; the
  prices service, called back, copies the index up to its largest tier end; each
  price tier fetches its slice of that copy (coingecko_markets/service.go,
  events/subscription.go, coingecko_prices/service.go,
  coingecko_prices/periodic_updater.go).
*/
module Pipeline {
  import opened Wrappers
  import opened Sequences
  import TopIds
  import Protocol = NotifyProtocol
  import Delivery
  import opened TierConfig
  import opened TierSlices
  import Markets
  import TierUpdater

  /** onMarketListChanged, for services that exist: the prices updater gets the index up to the tier limit. */
  method OnMarketListChanged<D>(priceTiers: seq<Tier>, marketsService: Markets.MarketsService,
                                periodicUpdater: TierUpdater.PeriodicUpdater<D>)
    returns (maxLimit: int)
    requires marketsService.Valid()
    modifies marketsService.topIdsManager, periodicUpdater`topMarketIds
    ensures marketsService.Valid()
    ensures marketsService.topIdsManager.pageToIds == old(marketsService.topIdsManager.pageToIds)
    ensures IsTierLimit(priceTiers, maxLimit, 100000)
    ensures periodicUpdater.topMarketIds == Copy(marketsService.topIdsManager.pageToIds, maxLimit)
    ensures maxLimit > 0 && periodicUpdater.topMarketIds <= TopIds.TopIdsOf(marketsService.topIdsManager.pageToIds)
    ensures |periodicUpdater.topMarketIds| == Min(maxLimit, |TopIds.TopIdsOf(marketsService.topIdsManager.pageToIds)|)
  {
    maxLimit := GetMaxTokenLimit(Some(priceTiers));
    var topMarketIds := marketsService.TopMarketIds(maxLimit);
    periodicUpdater.SetTopMarketIds(topMarketIds);
    assert forall p :: old(marketsService.Agrees(p)) ==> marketsService.Agrees(p);
  }

  /** What a callback that finds these pages hands to the prices updater. */
  ghost function Copy(pages: TopIds.Pages, limit: int): seq<string> {
    TopIds.Limited(TopIds.TopIdsOf(pages), limit)
  }

  /** The prices updater's topMarketIds: empty before the first callback has ended. */
  ghost function TopMarketIds(w: Protocol.Watcher<TopIds.Pages>, limit: int): seq<string> {
    if w.applied.Some? then Copy(w.applied.value, limit) else []
  }

  /** The publications of a run are these index operations, in this order, and nothing else. */
  ghost predicate Publishes(pages: TopIds.Pages, es: seq<Protocol.Step<TopIds.Pages>>, ops: seq<TopIds.Op>)
    decreases |es|
  {
    if es == [] then ops == []
    else if es[0].Publish? then
      ops != [] && es[0].value == TopIds.After(pages, ops[0]) && Publishes(es[0].value, es[1..], ops[1..])
    else Publishes(pages, es[1..], ops)
  }

  /** The publication of the first operation, and the others behind it. */
  lemma AfterPublish(s: Protocol.State<TopIds.Pages>, es: seq<Protocol.Step<TopIds.Pages>>, ops: seq<TopIds.Op>, k: nat)
    requires Protocol.IsRun(s, es) && es != [] && es[0].Publish? && k <= |ops|
    requires ops != [] && es[0].value == TopIds.After(s.Value(), ops[0])
    requires var next, t := Protocol.Do(s, es[0]), Protocol.After(s, es);
             && t.first == s.first && next.published <= t.published
             && (k > 0 ==> t.ValueAt(next.Version() + (k - 1)) == TopIds.AfterAll(next.Value(), ops[1..][..k - 1]))
    ensures Protocol.After(s, es).ValueAt(s.Version() + k) == TopIds.AfterAll(s.Value(), ops[..k])
  {
    if k > 0 {
      assert ops[..k][1..] == ops[1..][..k - 1];
    }
  }

  /** The version numbers count the operations: version k is the index after the first k of them. */
  lemma {:induction false} PublishedPages(s: Protocol.State<TopIds.Pages>, es: seq<Protocol.Step<TopIds.Pages>>,
                                          ops: seq<TopIds.Op>, k: nat)
    requires Protocol.IsRun(s, es) && Publishes(s.Value(), es, ops) && k <= |ops|
    ensures var t := Protocol.After(s, es);
            && t.first == s.first && s.published <= t.published
            && t.Version() == s.Version() + |ops|
            && t.ValueAt(s.Version() + k) == TopIds.AfterAll(s.Value(), ops[..k])
    decreases |es|
  {
    if es != [] {
      var next := Protocol.Do(s, es[0]);
      if es[0].Publish? {
        PublishedPages(next, es[1..], ops[1..], if k == 0 then 0 else k - 1);
        AfterPublish(s, es, ops, k);
      } else {
        PublishedPages(next, es[1..], ops, k);
      }
    }
  }

  /** A run from the empty index that publishes these operations. */
  ghost predicate IndexRun(es: seq<Protocol.Step<TopIds.Pages>>, ops: seq<TopIds.Op>) {
    Protocol.IsRun(Protocol.Initial(map[]), es) && Publishes(map[], es, ops)
  }

  ghost function End(es: seq<Protocol.Step<TopIds.Pages>>, ops: seq<TopIds.Op>): Protocol.State<TopIds.Pages>
    requires IndexRun(es, ops)
  {
    Protocol.After(Protocol.Initial(map[]), es)
  }

  /** The prices watcher has been called. */
  ghost predicate Called(es: seq<Protocol.Step<TopIds.Pages>>, ops: seq<TopIds.Op>, c: nat)
    requires IndexRun(es, ops)
  {
    c < |End(es, ops).watchers| && End(es, ops).watchers[c].applied.Some?
  }

  /** The prices updater's topMarketIds after the run, and how many of the operations it has learned of. */
  ghost function Held(es: seq<Protocol.Step<TopIds.Pages>>, ops: seq<TopIds.Op>, c: nat, limit: int): seq<string>
    requires IndexRun(es, ops) && Called(es, ops, c)
  {
    TopMarketIds(End(es, ops).watchers[c], limit)
  }

  ghost function Learned(es: seq<Protocol.Step<TopIds.Pages>>, ops: seq<TopIds.Op>, c: nat): nat
    requires IndexRun(es, ops) && Called(es, ops, c)
  {
    End(es, ops).watchers[c].appliedVersion
  }

  /** The index after these operations. */
  ghost function Index(ops: seq<TopIds.Op>): seq<string> {
    TopIds.TopIdsOf(TopIds.AfterAll(map[], ops))
  }

  /** At any time, the prices updater holds the index after the operations it has learned of, cut at the limit. */
  lemma HeldIsIndex(es: seq<Protocol.Step<TopIds.Pages>>, ops: seq<TopIds.Op>, c: nat, limit: int)
    requires IndexRun(es, ops) && Called(es, ops, c)
    ensures Learned(es, ops, c) <= |ops|
    ensures Held(es, ops, c, limit) == TopIds.Limited(Index(ops[..Learned(es, ops, c)]), limit)
  {
    Delivery.AppliedWasPublished(map[], es, c);
    PublishedPages(Protocol.Initial(map[]), es, ops, 0);
    PublishedPages(Protocol.Initial(map[]), es, ops, Learned(es, ops, c));
  }

  /** It is a prefix of that index, as long as the limit allows. */
  lemma HeldIsCut(es: seq<Protocol.Step<TopIds.Pages>>, ops: seq<TopIds.Op>, c: nat, limit: int)
    requires IndexRun(es, ops) && Called(es, ops, c)
    ensures Learned(es, ops, c) <= |ops|
    ensures var index := Index(ops[..Learned(es, ops, c)]);
            && Held(es, ops, c, limit) <= index
            && |Held(es, ops, c, limit)| == if limit <= 0 then |index| else Min(limit, |index|)
  {
    HeldIsIndex(es, ops, c, limit);
  }

  /** The prices watcher is subscribed, asked for an immediate call, and has not left its loop. */
  ghost predicate Subscribed(es: seq<Protocol.Step<TopIds.Pages>>, ops: seq<TopIds.Op>, c: nat)
    requires IndexRun(es, ops)
  {
    && c < |End(es, ops).watchers|
    && var w := End(es, ops).watchers[c];
       w.registered && w.immediate && Protocol.Watching(w)
  }

  ghost predicate AtRest(es: seq<Protocol.Step<TopIds.Pages>>, ops: seq<TopIds.Op>)
    requires IndexRun(es, ops)
  {
    forall e :: !Protocol.Internal(End(es, ops), e)
  }

  /**
    When a run has come to rest, the prices updater has learned of every
    operation, if and only if each emission whose breaking off lost it an update
    was followed by a step that made up for it, such as another publication.
  */
  lemma RestIsCurrent(es: seq<Protocol.Step<TopIds.Pages>>, ops: seq<TopIds.Op>, c: nat)
    requires IndexRun(es, ops) && Subscribed(es, ops, c) && AtRest(es, ops)
    ensures Called(es, ops, c)
    ensures Learned(es, ops, c) == |ops| <==> Delivery.Informed(Protocol.Initial(map[]), es, c)
  {
    PublishedPages(Protocol.Initial(map[]), es, ops, 0);
    Protocol.ReachableSafe(Protocol.Initial(map[]), es);
    Delivery.ReachableInv(Protocol.Initial(map[]), es);
    Delivery.RestIsCurrent(End(es, ops), c);
    Delivery.NoLostUpdate(map[], es, c);
  }

  /** No price tier can tell what the updater holds from the whole index it was cut from. */
  lemma PricesSeeTheIndex(es: seq<Protocol.Step<TopIds.Pages>>, ops: seq<TopIds.Op>, c: nat,
                          tiers: seq<Tier>, limit: int, i: nat)
    requires IndexRun(es, ops) && Called(es, ops, c)
    requires IsTierLimit(tiers, limit, 100000) && i < |tiers|
    ensures Learned(es, ops, c) <= |ops|
    ensures SliceOf(Held(es, ops, c, limit), tiers[i]) == SliceOf(Index(ops[..Learned(es, ops, c)]), tiers[i])
  {
    HeldIsIndex(es, ops, c, limit);
    TruncationKeepsSlices(Index(ops[..Learned(es, ops, c)]), tiers, limit, 100000, i);
  }

  /**
    The whole pipeline, at any time.  With validated price tiers that together
    cover the positions 1..n, an id is fetched exactly when it is among the first
    n of the index the updater has learned of, and then by exactly one tier.  At
    rest that index is the published one under the condition of RestIsCurrent.
  */
  lemma EachTopIdHasOneTier(es: seq<Protocol.Step<TopIds.Pages>>, ops: seq<TopIds.Op>, c: nat,
                            tiers: seq<Tier>, limit: int, n: nat, id: string)
    requires IndexRun(es, ops) && Called(es, ops, c)
    requires Good(tiers) && CoverExactly(tiers, n) && IsTierLimit(tiers, limit, 100000)
    ensures Learned(es, ops, c) <= |ops|
    ensures FetchedBySome(Held(es, ops, c, limit), tiers, id) <==> InFirst(Index(ops[..Learned(es, ops, c)]), n, id)
    ensures FetchedByOne(Held(es, ops, c, limit), tiers, id)
  {
    HeldIsIndex(es, ops, c, limit);
    var learned := ops[..Learned(es, ops, c)];
    forall i: nat | i < |tiers|
      ensures SliceOf(Held(es, ops, c, limit), tiers[i]) == SliceOf(Index(learned), tiers[i])
    {
      PricesSeeTheIndex(es, ops, c, tiers, limit, i);
    }
    TopIds.TopIdsCharacterised(TopIds.AfterAll(map[], learned), Index(learned));
    OneTier(Index(learned), tiers, n, id);
  }

  predicate InFirst(ids: seq<string>, n: nat, id: string) {
    id in ids[..Clamp(n, |ids|)]
  }

  /** Some tier's slice of the list has the id. */
  ghost predicate FetchedBySome(ids: seq<string>, tiers: seq<Tier>, id: string) {
    exists i :: 0 <= i < |tiers| && id in SliceOf(ids, tiers[i])
  }

  /** No two tiers' slices of the list have the id. */
  ghost predicate FetchedByOne(ids: seq<string>, tiers: seq<Tier>, id: string) {
    forall i, j :: (0 <= i < |tiers| && 0 <= j < |tiers|
                    && id in SliceOf(ids, tiers[i]) && id in SliceOf(ids, tiers[j])) ==> i == j
  }

  /** In any list without duplicates, one tier fetches each of the first n ids. */
  lemma OneTier(index: seq<string>, tiers: seq<Tier>, n: nat, id: string)
    requires Distinct(index) && Good(tiers) && CoverExactly(tiers, n)
    ensures FetchedBySome(index, tiers, id) <==> InFirst(index, n, id)
    ensures FetchedByOne(index, tiers, id)
  {
    if id in index {
      var p :| 0 <= p < |index| && index[p] == id;
      SlicesCover(index, tiers, n, p);
      if p < n {
        assert index[..Clamp(n, |index|)][p] == id;
      }
    }
  }
}
