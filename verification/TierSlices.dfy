/**
  The ids each tier fetches: slices of the top-id list
  (coingecko_prices/periodic_updater.go, fetcher_by_id/periodic_updater.go)
  and the truncation of that list to the largest tier end
  (coingecko_prices/service.go, config/fetcher_by_id_config.go).
*/
module TierSlices {
  import opened Wrappers
  import opened Sequences
  import opened TierConfig

  /** What a tier update finds to fetch.  A panic of the slice expression is recovered and fetches nothing. */
  datatype Slice =
    | NoIds
    | OutOfRange
    | InvalidRange
    | Panics
    | Ids(ids: seq<string>)

  function Fetched(s: Slice): seq<string> {
    if s.Ids? then s.ids else []
  }

  function Clamp(k: int, n: nat): (r: nat)
    ensures r <= n
  {
    Max(0, Min(k, n))
  }

  /** The ids at the 1-based positions from..to that exist. */
  function SliceOf(ids: seq<string>, t: Tier): seq<string> {
    var a, b := Clamp(t.from - 1, |ids|), Clamp(t.to, |ids|);
    if a <= b then ids[a..b] else []
  }

  /** The range computation of the prices updater, which trusts the validated configuration. */
  method PriceTierSlice(topMarketIds: seq<string>, tier: Tier) returns (s: Slice)
    ensures WellFormed(tier) ==> !s.Panics? && Fetched(s) == SliceOf(topMarketIds, tier)
    ensures s.NoIds? <==> topMarketIds == []
    ensures s.OutOfRange? <==> topMarketIds != [] && tier.from > |topMarketIds|
    ensures s.Panics? <==> topMarketIds != [] && tier.from <= |topMarketIds|
                           && (tier.from <= 0 || Min(tier.to, |topMarketIds|) < tier.from - 1)
    ensures !s.InvalidRange?
  {
    if |topMarketIds| == 0 {
      return NoIds;
    }
    var fromIndex := tier.from - 1;
    var toIndex := tier.to - 1;
    if fromIndex >= |topMarketIds| {
      return OutOfRange;
    }
    if toIndex >= |topMarketIds| {
      toIndex := |topMarketIds| - 1;
    }
    if fromIndex < 0 || toIndex + 1 < fromIndex {
      return Panics;
    }
    return Ids(topMarketIds[fromIndex..toIndex + 1]);
  }

  /** The range computation of the by-id updater, which checks the range itself and never panics. */
  method ByIdTierSlice(allIds: seq<string>, tier: Tier) returns (s: Slice)
    ensures !s.Panics? && !s.NoIds?
    ensures s.OutOfRange? <==> tier.from > 0 && tier.from > |allIds|
    ensures s.InvalidRange? <==> tier.from <= 0 || (tier.from <= |allIds| && tier.to < tier.from)
    ensures tier.from > 0 && tier.from <= tier.to ==> Fetched(s) == SliceOf(allIds, tier)
    ensures tier.from <= 0 || tier.to < tier.from ==> Fetched(s) == []
  {
    var fromIndex := tier.from - 1;
    var toIndex := tier.to - 1;
    if fromIndex < 0 {
      return InvalidRange;
    }
    if fromIndex >= |allIds| {
      return OutOfRange;
    }
    if toIndex < fromIndex {
      return InvalidRange;
    }
    if toIndex >= |allIds| {
      toIndex := |allIds| - 1;
    }
    return Ids(allIds[fromIndex..toIndex + 1]);
  }

  // ---------- truncation to the largest tier end ----------

  /** The limit that both limit computations share, with their own default. */
  predicate IsTierLimit(tiers: seq<Tier>, limit: int, fallback: int) {
    if forall i :: 0 <= i < |tiers| ==> tiers[i].to <= 0 then limit == fallback
    else
      && limit > 0
      && (exists i :: 0 <= i < |tiers| && tiers[i].to == limit)
      && (forall i :: 0 <= i < |tiers| ==> tiers[i].to <= limit)
  }

  method LargestTo(tiers: seq<Tier>) returns (maxTo: int)
    ensures maxTo >= 0
    ensures forall i :: 0 <= i < |tiers| ==> tiers[i].to <= maxTo
    ensures maxTo > 0 ==> exists i :: 0 <= i < |tiers| && tiers[i].to == maxTo
  {
    maxTo := 0;
    for k := 0 to |tiers|
      invariant maxTo >= 0
      invariant forall i :: 0 <= i < k ==> tiers[i].to <= maxTo
      invariant maxTo > 0 ==> exists i :: 0 <= i < k && tiers[i].to == maxTo
    {
      if tiers[k].to > maxTo {
        maxTo := tiers[k].to;
      }
    }
  }

  /** getMaxTokenLimit of the prices service; no configuration reads as no tiers. */
  method GetMaxTokenLimit(config: Option<seq<Tier>>) returns (limit: int)
    ensures config.None? ==> limit == 100000
    ensures config.Some? ==> IsTierLimit(config.value, limit, 100000)
  {
    if config.None? {
      return 100000;
    }
    var maxTokenTo := LargestTo(config.value);
    if maxTokenTo == 0 {
      return 100000;
    }
    return maxTokenTo;
  }

  /** GetMaxIdLimit of the by-id configuration. */
  method GetMaxIdLimit(tiers: seq<Tier>) returns (limit: int)
    ensures IsTierLimit(tiers, limit, 1000)
  {
    var maxTo := LargestTo(tiers);
    if maxTo > 0 {
      return maxTo;
    }
    return 1000;
  }

  /** Cutting the list to the tier limit changes the slice of no tier. */
  lemma TruncationKeepsSlices(ids: seq<string>, tiers: seq<Tier>, limit: int, fallback: int, i: nat)
    requires IsTierLimit(tiers, limit, fallback) && fallback > 0
    requires i < |tiers|
    ensures SliceOf(ids[..Clamp(limit, |ids|)], tiers[i]) == SliceOf(ids, tiers[i])
  {
    assert tiers[i].to <= limit;
    CutBeyond(ids, Clamp(limit, |ids|), tiers[i]);
  }

  /** A cut at or beyond the tier's end does not reach its slice. */
  lemma CutBeyond(ids: seq<string>, cut: nat, t: Tier)
    requires cut <= |ids| && (t.to <= cut || cut == |ids|)
    ensures SliceOf(ids[..cut], t) == SliceOf(ids, t)
  {
    if cut < |ids| {
      var a, b := Clamp(t.from - 1, |ids|), Clamp(t.to, |ids|);
      assert Clamp(t.to, cut) == b;
      if a <= b {
        assert ids[..cut][a..b] == ids[a..b];
      }
    } else {
      assert ids[..cut] == ids;
    }
  }

  // ---------- disjoint and covering ----------

  /** In a list without duplicates, a slice holds exactly the ids at the positions the tier covers. */
  lemma SliceMembers(ids: seq<string>, t: Tier, p: nat)
    requires Distinct(ids) && WellFormed(t) && p < |ids|
    ensures ids[p] in SliceOf(ids, t) <==> t.Covers(p + 1)
  {
    var a, b := Clamp(t.from - 1, |ids|), Clamp(t.to, |ids|);
    if t.Covers(p + 1) {
      assert ids[a..b][p - a] == ids[p];
    }
  }

  /** No id is fetched by two tiers. */
  lemma SlicesDisjoint(ids: seq<string>, tiers: seq<Tier>, i: nat, j: nat, id: string)
    requires Distinct(ids) && Good(tiers)
    requires i < |tiers| && j < |tiers| && i != j
    ensures !(id in SliceOf(ids, tiers[i]) && id in SliceOf(ids, tiers[j]))
  {
    if id in ids {
      var p :| 0 <= p < |ids| && ids[p] == id;
      SliceMembers(ids, tiers[i], p);
      SliceMembers(ids, tiers[j], p);
      assert Disjoint(tiers[i], tiers[j]) || Disjoint(tiers[j], tiers[i]);
    }
  }

  /** The tiers together cover the positions 1..n and nothing else. */
  ghost predicate CoverExactly(tiers: seq<Tier>, n: nat) {
    forall x: int :: 1 <= x <= n <==> Covered(tiers, x)
  }

  ghost predicate Covered(tiers: seq<Tier>, x: int) {
    exists i :: 0 <= i < |tiers| && tiers[i].Covers(x)
  }

  /** Each of the first n ids is fetched by exactly one tier, and no id beyond them by any. */
  lemma SlicesCover(ids: seq<string>, tiers: seq<Tier>, n: nat, p: nat)
    requires Distinct(ids) && Good(tiers) && CoverExactly(tiers, n)
    requires p < |ids|
    ensures p < n <==> exists i :: 0 <= i < |tiers| && ids[p] in SliceOf(ids, tiers[i])
    ensures forall i, j :: (0 <= i < |tiers| && 0 <= j < |tiers|
                            && ids[p] in SliceOf(ids, tiers[i]) && ids[p] in SliceOf(ids, tiers[j])) ==> i == j
  {
    forall i | 0 <= i < |tiers|
      ensures ids[p] in SliceOf(ids, tiers[i]) <==> tiers[i].Covers(p + 1)
    {
      SliceMembers(ids, tiers[i], p);
    }
    if p < n {
      assert Covered(tiers, p + 1);
      var i :| 0 <= i < |tiers| && tiers[i].Covers(p + 1);
      assert ids[p] in SliceOf(ids, tiers[i]);
    }
    if exists i :: 0 <= i < |tiers| && ids[p] in SliceOf(ids, tiers[i]) {
      assert Covered(tiers, p + 1);
    }
    forall i, j | 0 <= i < |tiers| && 0 <= j < |tiers|
                  && ids[p] in SliceOf(ids, tiers[i]) && ids[p] in SliceOf(ids, tiers[j])
      ensures i == j
    {
      if i != j {
        SlicesDisjoint(ids, tiers, i, j, ids[p]);
      }
    }
  }

  /** Tiers listed in order, each starting where the previous one ends. */
  predicate Chain(tiers: seq<Tier>) {
    && (forall i :: 0 <= i < |tiers| ==> WellFormed(tiers[i]))
    && (tiers != [] ==> tiers[0].from == 1)
    && (forall i :: 0 < i < |tiers| ==> tiers[i].from == tiers[i - 1].to + 1)
  }

  function SlicesOf(ids: seq<string>, tiers: seq<Tier>): seq<seq<string>> {
    seq(|tiers|, i requires 0 <= i < |tiers| => SliceOf(ids, tiers[i]))
  }

  /** The slices of a chain, one after the other, give the list back up to the last tier's end. */
  lemma {:induction false} ChainReassembles(ids: seq<string>, tiers: seq<Tier>)
    requires Chain(tiers) && tiers != []
    ensures Flatten(SlicesOf(ids, tiers)) == ids[..Clamp(tiers[|tiers| - 1].to, |ids|)]
  {
    var n := |tiers| - 1;
    var before := SlicesOf(ids, tiers[..n]);
    assert SlicesOf(ids, tiers) == before + [SliceOf(ids, tiers[n])];
    FlattenAppend(before, SliceOf(ids, tiers[n]));
    NextSlice(ids, tiers[n]);
    if n > 0 {
      assert tiers[..n][n - 1] == tiers[n - 1];
      ChainReassembles(ids, tiers[..n]);
    }
  }

  lemma NextSlice(ids: seq<string>, t: Tier)
    requires WellFormed(t)
    ensures ids[..Clamp(t.from - 1, |ids|)] + SliceOf(ids, t) == ids[..Clamp(t.to, |ids|)]
  {
  }

  /** Distinct ids are needed: a duplicated id lands in two slices of perfectly good tiers. */
  lemma DuplicateIdsShareSlices()
    ensures var a := Tier("a", 1, 1, 1, false);
            var b := Tier("b", 2, 2, 1, false);
            var ids := ["x", "x"];
            Good([a, b]) && "x" in SliceOf(ids, a) && "x" in SliceOf(ids, b)
  {
    var ids := ["x", "x"];
    assert ids[0..1][0] == "x" && ids[1..2][0] == "x";
  }
}
