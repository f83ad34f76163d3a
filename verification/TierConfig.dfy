/**
  Tier configurations and the slices they cut out of the top-id list.

  Price tiers, market tiers and by-id tiers carry a name, a 1-based inclusive
  range and an update interval, and are validated by the same code
  (config/coingecko_prices_config.go, config/coingecko_markets_config.go,
  config/fetcher_by_id_config.go).  Only the emptiness check differs: the by-id
  configuration makes it before it validates the tiers.
*/
module TierConfig {
  datatype Tier = Tier(name: string, from: int, to: int, updateInterval: int, fetchCoinslistIds: bool)
  {
    predicate Covers(position: int) {
      from <= position <= to
    }
  }

  datatype TierError =
    | NoTiers
    | EmptyName(tier: Tier)
    | FromNotPositive(tier: Tier)
    | ToBeforeFrom(tier: Tier)
    | BadInterval(tier: Tier)
    | Overlap(tier: Tier, previous: Tier)

  datatype Validation = Valid | Invalid(error: TierError)

  // ---------- what a good configuration is ----------

  predicate WellFormed(t: Tier) {
    t.name != "" && 0 < t.from <= t.to && t.updateInterval > 0
  }

  predicate Disjoint(a: Tier, b: Tier) {
    a.to < b.from || b.to < a.from
  }

  ghost predicate Good(tiers: seq<Tier>) {
    && (forall i :: 0 <= i < |tiers| ==> WellFormed(tiers[i]))
    && (forall i, j :: 0 <= i < j < |tiers| ==> Disjoint(tiers[i], tiers[j]))
  }

  /** What an error message claims is true of the configuration. */
  ghost predicate Justified(tiers: seq<Tier>, e: TierError) {
    match e
    case NoTiers => tiers == []
    case EmptyName(t) => t in tiers && t.name == ""
    case FromNotPositive(t) => t in tiers && t.from <= 0
    case ToBeforeFrom(t) => t in tiers && t.to < t.from
    case BadInterval(t) => t in tiers && t.updateInterval <= 0
    case Overlap(t, p) => exists i, j :: 0 <= i < |tiers| && 0 <= j < |tiers| && i != j
                                         && tiers[i] == t && tiers[j] == p && !Disjoint(t, p)
  }

  // ---------- sorting ----------

  predicate SortedByFrom(tiers: seq<Tier>) {
    forall i, j :: 0 <= i < j < |tiers| ==> tiers[i].from <= tiers[j].from
  }

  /**
    sort.Slice by the start of the range.  The sort is not stable: callers may
    rely on nothing but a sorted rearrangement, which is all the contract says.
  */
  method SortSlice(tiers: seq<Tier>) returns (sorted: seq<Tier>)
    ensures multiset(sorted) == multiset(tiers) && SortedByFrom(sorted)
  {
    sorted := [];
    for i := 0 to |tiers|
      invariant multiset(sorted) == multiset(tiers[..i]) && SortedByFrom(sorted)
    {
      assert tiers[..i + 1] == tiers[..i] + [tiers[i]];
      InsertTierPermutes(sorted, tiers[i]);
      sorted := InsertTier(sorted, tiers[i]);
    }
    assert tiers[..|tiers|] == tiers;
  }

  function InsertTier(s: seq<Tier>, t: Tier): (r: seq<Tier>)
    requires SortedByFrom(s)
    ensures SortedByFrom(r)
    ensures r != [] && (r[0] == t || (s != [] && r[0] == s[0]))
  {
    if s == [] || t.from < s[0].from then [t] + s
    else [s[0]] + InsertTier(s[1..], t)
  }

  lemma {:induction false} InsertTierPermutes(s: seq<Tier>, t: Tier)
    requires SortedByFrom(s)
    ensures multiset(InsertTier(s, t)) == multiset(s) + multiset{t}
  {
    if !(s == [] || t.from < s[0].from) {
      assert s == [s[0]] + s[1..];
      InsertTierPermutes(s[1..], t);
    }
  }

  // ---------- validation ----------

  method CheckSorted(tiers: seq<Tier>) returns (v: Validation)
    requires SortedByFrom(tiers)
    ensures v.Valid? <==> Good(tiers)
    ensures v.Invalid? ==> !v.error.NoTiers? && Justified(tiers, v.error)
  {
    for i := 0 to |tiers|
      invariant Good(tiers[..i])
      invariant i > 0 ==> forall k :: 0 <= k < i ==> tiers[k].to <= tiers[i - 1].to
    {
      var tier := tiers[i];
      if tier.name == "" {
        return Invalid(EmptyName(tier));
      }
      if tier.from <= 0 {
        return Invalid(FromNotPositive(tier));
      }
      if tier.to < tier.from {
        return Invalid(ToBeforeFrom(tier));
      }
      if tier.updateInterval <= 0 {
        return Invalid(BadInterval(tier));
      }
      if i > 0 {
        var prevTier := tiers[i - 1];
        if tier.from <= prevTier.to {
          assert WellFormed(tiers[..i][i - 1]);
          assert !Disjoint(prevTier, tier);
          return Invalid(Overlap(tier, prevTier));
        }
      }
      GoodExtend(tiers, i);
    }
    assert tiers[..|tiers|] == tiers;
    return Valid;
  }

  /** In start order, a tier that clears its predecessor clears every earlier tier. */
  lemma GoodExtend(tiers: seq<Tier>, i: nat)
    requires i < |tiers| && Good(tiers[..i]) && WellFormed(tiers[i])
    requires i > 0 ==> forall k :: 0 <= k < i ==> tiers[k].to <= tiers[i - 1].to
    requires i > 0 ==> tiers[i - 1].to < tiers[i].from
    ensures Good(tiers[..i + 1])
    ensures forall k :: 0 <= k <= i ==> tiers[k].to <= tiers[i].to
  {
    var s := tiers[..i + 1];
    forall a | 0 <= a < |s|
      ensures WellFormed(s[a])
    {
      if a < i {
        assert s[a] == tiers[..i][a];
      }
    }
    forall a, b | 0 <= a < b < |s|
      ensures Disjoint(s[a], s[b])
    {
      if b < i {
        assert s[a] == tiers[..i][a] && s[b] == tiers[..i][b];
      }
    }
  }

  /** validateTiers of the prices and markets configurations. */
  method ValidateTiers(tiers: seq<Tier>) returns (v: Validation)
    ensures v.Valid? <==> tiers != [] && Good(tiers)
    ensures v.Valid? <==>
              && tiers != []
              && (forall i :: 0 <= i < |tiers| ==>
                    tiers[i].name != "" && 0 < tiers[i].from <= tiers[i].to && tiers[i].updateInterval > 0)
              && forall i, j :: 0 <= i < j < |tiers| ==>
                                  tiers[i].to < tiers[j].from || tiers[j].to < tiers[i].from
    ensures v.Invalid? ==> Justified(tiers, v.error)
  {
    if |tiers| == 0 {
      return Invalid(NoTiers);
    }
    var sorted := SortSlice(tiers);
    v := CheckSorted(sorted);
    GoodUnderPermutation(tiers, sorted);
    if v.Invalid? {
      JustifiedUnderPermutation(sorted, tiers, v.error);
    }
  }

  /** validateTiers of the by-id configuration, which accepts an empty list; Validate rejects that first. */
  method ValidateTiersById(tiers: seq<Tier>) returns (v: Validation)
    ensures v.Valid? <==> Good(tiers)
    ensures v.Valid? <==>
              && (forall i :: 0 <= i < |tiers| ==>
                    tiers[i].name != "" && 0 < tiers[i].from <= tiers[i].to && tiers[i].updateInterval > 0)
              && forall i, j :: 0 <= i < j < |tiers| ==>
                                  tiers[i].to < tiers[j].from || tiers[j].to < tiers[i].from
    ensures v.Invalid? ==> Justified(tiers, v.error)
  {
    var sorted := SortSlice(tiers);
    v := CheckSorted(sorted);
    GoodUnderPermutation(tiers, sorted);
    if v.Invalid? {
      JustifiedUnderPermutation(sorted, tiers, v.error);
    }
  }

  // ---------- permutations ----------

  lemma {:induction false} CountsTwice<T>(s: seq<T>, x: T)
    ensures multiset(s)[x] >= 1 <==> x in s
    ensures multiset(s)[x] >= 2 <==> exists i, j :: 0 <= i < j < |s| && s[i] == x && s[j] == x
  {
    if s != [] {
      var n := |s| - 1;
      var t := s[..n];
      assert s == t + [s[n]];
      assert multiset(s) == multiset(t) + multiset{s[n]};
      CountsTwice(t, x);
      if s[n] == x && x in t {
        var i :| 0 <= i < n && t[i] == x;
        assert s[i] == x && s[n] == x;
      }
      if exists i, j :: 0 <= i < j < |s| && s[i] == x && s[j] == x {
        var i, j :| 0 <= i < j < |s| && s[i] == x && s[j] == x;
        assert t[i] == x;
        if j < n {
          assert t[j] == x;
        }
      }
      if multiset(t)[x] >= 2 {
        var i, j :| 0 <= i < j < |t| && t[i] == x && t[j] == x;
        assert s[i] == x && s[j] == x;
      }
    }
  }

  /** Two positions holding a and b can be found in any rearrangement. */
  lemma PairInPermutation<T>(s: seq<T>, t: seq<T>, i: nat, j: nat) returns (k: nat, l: nat)
    requires multiset(s) == multiset(t)
    requires i < |s| && j < |s| && i != j
    ensures k < |t| && l < |t| && k != l && t[k] == s[i] && t[l] == s[j]
  {
    CountsTwice(s, s[i]);
    CountsTwice(t, s[i]);
    CountsTwice(s, s[j]);
    CountsTwice(t, s[j]);
    if s[i] == s[j] {
      var x := s[i];
      var lo, hi := if i < j then i else j, if i < j then j else i;
      assert s[lo] == x && s[hi] == x;
      k, l :| 0 <= k < l < |t| && t[k] == x && t[l] == x;
    } else {
      k :| 0 <= k < |t| && t[k] == s[i];
      l :| 0 <= l < |t| && t[l] == s[j];
    }
  }

  lemma GoodOneWay(s: seq<Tier>, t: seq<Tier>)
    requires multiset(s) == multiset(t) && Good(s)
    ensures Good(t)
  {
    forall i | 0 <= i < |t|
      ensures WellFormed(t[i])
    {
      CountsTwice(t, t[i]);
      CountsTwice(s, t[i]);
    }
    forall i, j | 0 <= i < j < |t|
      ensures Disjoint(t[i], t[j])
    {
      var k, l := PairInPermutation(t, s, i, j);
      assert k < l || l < k;
    }
  }

  lemma GoodUnderPermutation(s: seq<Tier>, t: seq<Tier>)
    requires multiset(s) == multiset(t)
    ensures Good(s) <==> Good(t)
  {
    if Good(s) {
      GoodOneWay(s, t);
    }
    if Good(t) {
      GoodOneWay(t, s);
    }
  }

  lemma JustifiedUnderPermutation(s: seq<Tier>, t: seq<Tier>, e: TierError)
    requires multiset(s) == multiset(t) && !e.NoTiers? && Justified(s, e)
    ensures Justified(t, e)
  {
    CountsTwice(s, e.tier);
    CountsTwice(t, e.tier);
    if e.Overlap? {
      var i, j :| 0 <= i < |s| && 0 <= j < |s| && i != j && s[i] == e.tier && s[j] == e.previous;
      var k, l := PairInPermutation(s, t, i, j);
    }
  }
}
