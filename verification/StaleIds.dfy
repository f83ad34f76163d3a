/**
  Choosing the extra ids to fetch again: those without a fresh copy in the tiers
  (findMissingOrStaleIds in coingecko_prices/periodic_updater.go and
  coingecko_markets/periodic_updater.go).

  Both loops range over the tier map, whose order may differ for every id.  The
  order is therefore an input: `orders[i]` lists the tier names in the order met
  for extra id number i.  `Ids` is what a tier holds: a map of prices by id, or a
  list of market records; only the ids and their presence matter.
*/
module StaleIds {
  import opened Sequences

  datatype TierCopy = TierCopy(ids: seq<string>, timestamp: int)

  type Copies = map<string, TierCopy>

  /** Some order of the keys of a map. */
  ghost predicate IsOrder(order: seq<string>, tiers: Copies) {
    Distinct(order) && forall name :: name in order <==> name in tiers
  }

  ghost predicate AreOrders(orders: seq<seq<string>>, tiers: Copies, n: nat) {
    |orders| == n && forall i :: 0 <= i < n ==> IsOrder(orders[i], tiers)
  }

  predicate StaleCopy(t: TierCopy, now: int, halfTTL: int) {
    now - t.timestamp > halfTTL
  }

  predicate HasCopy(tiers: Copies, name: string, id: string) {
    name in tiers && id in tiers[name].ids
  }

  ghost predicate HasFreshCopy(tiers: Copies, id: string, now: int, halfTTL: int) {
    exists name :: HasCopy(tiers, name, id) && now - tiers[name].timestamp <= halfTTL
  }

  ghost predicate HasStaleCopy(tiers: Copies, id: string, now: int, halfTTL: int) {
    exists name :: HasCopy(tiers, name, id) && now - tiers[name].timestamp > halfTTL
  }

  /** The ids whose decision is true, in order. */
  function Pick(ids: seq<string>, chosen: seq<bool>): seq<string>
    requires |chosen| == |ids|
  {
    if ids == [] then []
    else
      var n := |ids| - 1;
      Pick(ids[..n], chosen[..n]) + if chosen[n] then [ids[n]] else []
  }

  /** Both loops decide by the first copy they meet: fetch again unless that copy is fresh. */
  function Needed(tiers: Copies, order: seq<string>, id: string, now: int, halfTTL: int): bool {
    if order == [] then true
    else if HasCopy(tiers, order[0], id) then StaleCopy(tiers[order[0]], now, halfTTL)
    else Needed(tiers, order[1..], id, now, halfTTL)
  }

  // ---------- the two loops ----------

  /** The prices variant leaves the tier loop at the first tier that holds the id. */
  method NeededInPrices(tiers: Copies, order: seq<string>, id: string, now: int, halfTTL: int) returns (needed: bool)
    requires forall name :: name in order ==> name in tiers
    ensures needed == Needed(tiers, order, id, now, halfTTL)
  {
    var found, isStale := false, false;
    var i := 0;
    while i < |order|
      invariant 0 <= i <= |order|
      invariant !found && !isStale
      invariant Needed(tiers, order, id, now, halfTTL) == Needed(tiers, order[i..], id, now, halfTTL)
    {
      var tierData := tiers[order[i]];
      if id in tierData.ids {
        found := true;
        if now - tierData.timestamp > halfTTL {
          isStale := true;
        }
        break;
      }
      i := i + 1;
    }
    return !found || isStale;
  }

  /** The markets variant goes on after a stale copy, but never forgets it. */
  method NeededInMarkets(tiers: Copies, order: seq<string>, id: string, now: int, halfTTL: int) returns (needed: bool)
    requires forall name :: name in order ==> name in tiers
    ensures needed == Needed(tiers, order, id, now, halfTTL)
  {
    var found, isStale := false, false;
    for i := 0 to |order|
      invariant !found ==>
                  !isStale && Needed(tiers, order, id, now, halfTTL) == Needed(tiers, order[i..], id, now, halfTTL)
      invariant found ==> isStale && Needed(tiers, order, id, now, halfTTL)
    {
      var tierData := tiers[order[i]];
      for j := 0 to |tierData.ids|
        invariant id !in tierData.ids[..j]
        invariant !found ==> !isStale
        invariant found ==> isStale
      {
        if tierData.ids[j] == id {
          found := true;
          if now - tierData.timestamp > halfTTL {
            isStale := true;
          }
          break;
        }
      }
      assert tierData.ids[..|tierData.ids|] == tierData.ids;
      if found && !isStale {
        break;
      }
    }
    return !found || isStale;
  }

  method FindMissingOrStalePrices(extraIds: seq<string>, tiers: Copies, orders: seq<seq<string>>, now: int,
                                  halfTTL: int)
    returns (missing: seq<string>)
    requires AreOrders(orders, tiers, |extraIds|)
    ensures missing == Pick(extraIds, Decisions(extraIds, tiers, orders, now, halfTTL))
  {
    missing := [];
    ghost var chosen := Decisions(extraIds, tiers, orders, now, halfTTL);
    for i := 0 to |extraIds|
      invariant missing == Pick(extraIds[..i], chosen[..i])
    {
      var needed := NeededInPrices(tiers, orders[i], extraIds[i], now, halfTTL);
      assert extraIds[..i + 1][..i] == extraIds[..i] && chosen[..i + 1][..i] == chosen[..i];
      if needed {
        missing := missing + [extraIds[i]];
      }
    }
    assert extraIds[..|extraIds|] == extraIds && chosen[..|extraIds|] == chosen;
  }

  method FindMissingOrStaleMarkets(extraIds: seq<string>, tiers: Copies, orders: seq<seq<string>>, now: int,
                                   halfTTL: int)
    returns (missing: seq<string>)
    requires AreOrders(orders, tiers, |extraIds|)
    ensures missing == Pick(extraIds, Decisions(extraIds, tiers, orders, now, halfTTL))
  {
    missing := [];
    ghost var chosen := Decisions(extraIds, tiers, orders, now, halfTTL);
    for i := 0 to |extraIds|
      invariant missing == Pick(extraIds[..i], chosen[..i])
    {
      var needed := NeededInMarkets(tiers, orders[i], extraIds[i], now, halfTTL);
      assert extraIds[..i + 1][..i] == extraIds[..i] && chosen[..i + 1][..i] == chosen[..i];
      if needed {
        missing := missing + [extraIds[i]];
      }
    }
    assert extraIds[..|extraIds|] == extraIds && chosen[..|extraIds|] == chosen;
  }

  function Decisions(extraIds: seq<string>, tiers: Copies, orders: seq<seq<string>>, now: int, halfTTL: int)
    : (chosen: seq<bool>)
    requires |orders| == |extraIds|
    ensures |chosen| == |extraIds|
  {
    seq(|extraIds|, i requires 0 <= i < |extraIds| => Needed(tiers, orders[i], extraIds[i], now, halfTTL))
  }

  // ---------- soundness ----------

  lemma {:induction false} NeededSound(tiers: Copies, order: seq<string>, id: string, now: int, halfTTL: int)
    requires forall name :: name in order ==> name in tiers
    requires forall name :: HasCopy(tiers, name, id) ==> name in order
    ensures !HasFreshCopy(tiers, id, now, halfTTL) ==> Needed(tiers, order, id, now, halfTTL)
    ensures Needed(tiers, order, id, now, halfTTL)
            ==> HasStaleCopy(tiers, id, now, halfTTL) || forall name :: !HasCopy(tiers, name, id)
    decreases |order|
  {
    if order != [] && !HasCopy(tiers, order[0], id) {
      assert forall name :: HasCopy(tiers, name, id) ==> name in order[1..];
      NeededSound(tiers, order[1..], id, now, halfTTL);
    }
  }

  /** The chosen positions, in increasing order. */
  function Positions(chosen: seq<bool>): (at: seq<nat>)
    ensures forall k :: 0 <= k < |at| ==> at[k] < |chosen| && chosen[at[k]]
  {
    if chosen == [] then []
    else
      var n := |chosen| - 1;
      Positions(chosen[..n]) + if chosen[n] then [n] else []
  }

  lemma {:induction false} EveryChosenPosition(chosen: seq<bool>, p: nat)
    requires p < |chosen| && chosen[p]
    ensures p in Positions(chosen)
  {
    var n := |chosen| - 1;
    if p < n {
      EveryChosenPosition(chosen[..n], p);
    }
  }

  lemma {:induction false} PositionsIncrease(chosen: seq<bool>, i: nat, j: nat)
    requires i < j < |Positions(chosen)|
    ensures Positions(chosen)[i] < Positions(chosen)[j]
  {
    var before := Positions(chosen[..|chosen| - 1]);
    if j < |before| {
      PositionsIncrease(chosen[..|chosen| - 1], i, j);
    } else {
      assert Positions(chosen)[i] == before[i];
    }
  }

  /** The result lists the extra ids at the chosen positions, one by one. */
  lemma {:induction false} PickIsSubsequence(ids: seq<string>, chosen: seq<bool>)
    requires |chosen| == |ids|
    ensures |Pick(ids, chosen)| == |Positions(chosen)|
    ensures forall k :: 0 <= k < |Positions(chosen)| ==> Pick(ids, chosen)[k] == ids[Positions(chosen)[k]]
  {
    if ids != [] {
      var n := |ids| - 1;
      var before, at := Positions(chosen[..n]), Positions(chosen);
      var picked := Pick(ids[..n], chosen[..n]);
      PickIsSubsequence(ids[..n], chosen[..n]);
      forall k | 0 <= k < |at|
        ensures Pick(ids, chosen)[k] == ids[at[k]]
      {
        if k < |before| {
          assert at[k] == before[k] && Pick(ids, chosen)[k] == picked[k];
          assert picked[k] == ids[..n][before[k]];
        }
      }
    }
  }

  /**
    For every order: an id without a fresh copy in any tier is chosen, and an id
    with copies, all of them fresh, is not.
  */
  lemma SelectionSound(extraIds: seq<string>, tiers: Copies, orders: seq<seq<string>>, now: int, halfTTL: int, i: nat)
    requires AreOrders(orders, tiers, |extraIds|) && i < |extraIds|
    ensures var chosen := Decisions(extraIds, tiers, orders, now, halfTTL);
            var id := extraIds[i];
            && (!HasFreshCopy(tiers, id, now, halfTTL) ==> chosen[i])
            && (HasFreshCopy(tiers, id, now, halfTTL) && !HasStaleCopy(tiers, id, now, halfTTL) ==> !chosen[i])
  {
    NeededSound(tiers, orders[i], extraIds[i], now, halfTTL);
  }

  /** Every map has an order that begins with a given tier. */
  lemma OrderFrom(tiers: Copies, first: string) returns (order: seq<string>)
    requires first in tiers
    ensures IsOrder(order, tiers) && order != [] && order[0] == first
  {
    var rest := Listed(tiers.Keys - {first});
    order := [first] + rest;
    forall i, j | 0 <= i < j < |order|
      ensures order[i] != order[j]
    {
      if i == 0 {
        assert rest[j - 1] in rest;
      }
    }
  }

  lemma Listed(names: set<string>) returns (order: seq<string>)
    ensures Distinct(order) && forall name :: name in order <==> name in names
    decreases |names|
  {
    if names == {} {
      order := [];
    } else {
      var name :| name in names;
      var rest := Listed(names - {name});
      order := [name] + rest;
      forall i, j | 0 <= i < j < |order|
        ensures order[i] != order[j]
      {
        if i == 0 {
          assert rest[j - 1] in rest;
        }
      }
    }
  }

  /** Two orders of the tier map decide differently about the id. */
  ghost predicate OrderDecides(tiers: Copies, id: string, now: int, halfTTL: int) {
    exists a, b :: IsOrder(a, tiers) && IsOrder(b, tiers)
                   && Needed(tiers, a, id, now, halfTTL) && !Needed(tiers, b, id, now, halfTTL)
  }

  /** The map order decides exactly for the ids that have both a fresh and a stale copy. */
  lemma MixedCopiesDependOnOrder(tiers: Copies, id: string, now: int, halfTTL: int)
    ensures OrderDecides(tiers, id, now, halfTTL)
            <==> HasFreshCopy(tiers, id, now, halfTTL) && HasStaleCopy(tiers, id, now, halfTTL)
  {
    if HasFreshCopy(tiers, id, now, halfTTL) && HasStaleCopy(tiers, id, now, halfTTL) {
      var freshTier :| HasCopy(tiers, freshTier, id) && !StaleCopy(tiers[freshTier], now, halfTTL);
      var stale :| HasCopy(tiers, stale, id) && StaleCopy(tiers[stale], now, halfTTL);
      var a := OrderFrom(tiers, stale);
      var b := OrderFrom(tiers, freshTier);
      assert Needed(tiers, a, id, now, halfTTL) && !Needed(tiers, b, id, now, halfTTL);
    }
    if OrderDecides(tiers, id, now, halfTTL) {
      var a, b :| IsOrder(a, tiers) && IsOrder(b, tiers)
                  && Needed(tiers, a, id, now, halfTTL) && !Needed(tiers, b, id, now, halfTTL);
      NeededSound(tiers, a, id, now, halfTTL);
      NeededSound(tiers, b, id, now, halfTTL);
    }
  }
}
