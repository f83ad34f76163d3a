/**
  The per-tier update machine that the prices and markets updaters share
  (coingecko_prices/periodic_updater.go, coingecko_markets/periodic_updater.go).

  A check launches an update of a tier unless one is marked as running; a mark
  older than max(10 minutes, 3 intervals) counts as stuck.  Times are
  nanoseconds since 1970, durations are 64-bit: a difference of times saturates
  and a product wraps around, as in the source's language.
*/
module TierUpdater {
  import opened Wrappers
  import opened Sequences
  import opened Strings
  import opened TierConfig
  import opened TierSlices

  /** The zero value of a time: the first of January of the year 1. */
  const ZERO_TIME: int := -62_135_596_800_000_000_000
  const TEN_MINUTES: int := 600_000_000_000

  predicate IsDuration(d: int) {
    MIN_INT64 <= d <= MAX_INT64
  }

  /** The difference of two times, which saturates. */
  function Since(now: int, then_: int): int {
    Max(MIN_INT64, Min(MAX_INT64, now - then_))
  }

  /** 64-bit wrap-around. */
  function Wrap64(x: int): int {
    (x - MIN_INT64) % 0x1_0000_0000_0000_0000 + MIN_INT64
  }

  function MaxUpdateDuration(interval: int): int {
    if Wrap64(interval * 3) > TEN_MINUTES then Wrap64(interval * 3) else TEN_MINUTES
  }

  datatype TierData<D> = TierData(data: D, timestamp: int, updateStartTime: Option<int>)

  type Tiers<D> = map<string, TierData<D>>

  // ---------- what each locked section does ----------

  /** setTierUpdateStartTime: sets or clears the mark, creating an entry that was never updated. */
  function Marked<D>(tiers: Tiers<D>, name: string, start: Option<int>, empty: D): Tiers<D> {
    if name in tiers then tiers[name := tiers[name].(updateStartTime := start)]
    else tiers[name := TierData(empty, ZERO_TIME, start)]
  }

  /** The cache update after a successful fetch, which also drops the mark. */
  function Committed<D>(tiers: Tiers<D>, name: string, data: D, now: int): Tiers<D> {
    tiers[name := TierData(data, now, None)]
  }

  predicate Stuck<D>(tiers: Tiers<D>, tier: Tier, now: int) {
    && tier.name in tiers
    && tiers[tier.name].updateStartTime.Some?
    && Since(now, tiers[tier.name].updateStartTime.value) > MaxUpdateDuration(tier.updateInterval)
  }

  predicate Launches<D>(tiers: Tiers<D>, tier: Tier, now: int, force: bool) {
    tier.name in tiers ==>
      var entry := tiers[tier.name];
      && (entry.updateStartTime.Some? ==> Stuck(tiers, tier, now))
      && (force || Since(now, entry.timestamp) >= tier.updateInterval)
  }

  function LaunchedOf<D>(tiers: Tiers<D>, config: seq<Tier>, now: int, force: bool): seq<Tier> {
    if config == [] then []
    else
      var last := config[|config| - 1];
      LaunchedOf(tiers, config[..|config| - 1], now, force)
      + if Launches(tiers, last, now, force) then [last] else []
  }

  ghost function Due<D>(tiers: Tiers<D>, config: seq<Tier>, now: int, force: bool): set<nat> {
    set i: nat | i < |config| && Launches(tiers, config[i], now, force)
  }

  lemma DueGrows<D>(tiers: Tiers<D>, config: seq<Tier>, last: Tier, now: int, force: bool)
    ensures Due(tiers, config + [last], now, force)
         == Due(tiers, config, now, force) + if Launches(tiers, last, now, force) then {|config|} else {}
  {
    var all := config + [last];
    forall i: nat
      ensures i in Due(tiers, all, now, force)
              <==> i in Due(tiers, config, now, force) || (i == |config| && Launches(tiers, last, now, force))
    {
      assert i < |config| ==> all[i] == config[i];
    }
  }

  lemma LaunchedGrows<D>(tiers: Tiers<D>, config: seq<Tier>, last: Tier, now: int, force: bool)
    requires Selects(config, LaunchedOf(tiers, config, now, force), Due(tiers, config, now, force))
    ensures Selects(config + [last], LaunchedOf(tiers, config + [last], now, force),
                    Due(tiers, config + [last], now, force))
  {
    var launches := Launches(tiers, last, now, force);
    SelectsOneMore(config, last, LaunchedOf(tiers, config, now, force), Due(tiers, config, now, force), launches);
    DueGrows(tiers, config, last, now, force);
    LaunchedStep(tiers, config, last, now, force);
  }

  lemma LaunchedStep<D>(tiers: Tiers<D>, config: seq<Tier>, last: Tier, now: int, force: bool)
    ensures LaunchedOf(tiers, config + [last], now, force)
         == LaunchedOf(tiers, config, now, force) + if Launches(tiers, last, now, force) then [last] else []
  {
    assert (config + [last])[..|config|] == config;
  }

  /** The tiers that are launched are those at exactly the positions where the launch rule holds, in order. */
  lemma {:induction false} LaunchedAreDue<D>(tiers: Tiers<D>, config: seq<Tier>, now: int, force: bool)
    ensures Selects(config, LaunchedOf(tiers, config, now, force), Due(tiers, config, now, force))
  {
    if config == [] {
      SelectsNone<Tier>();
      assert Due(tiers, config, now, force) == {};
    } else {
      var n := |config| - 1;
      LaunchedAreDue(tiers, config[..n], now, force);
      LaunchedGrows(tiers, config[..n], config[n], now, force);
      assert config == config[..n] + [config[n]];
    }
  }

  class PeriodicUpdater<D> {
    const config: seq<Tier>
    const empty: D
    var tiers: Tiers<D>
    var topMarketIds: seq<string>

    constructor (config: seq<Tier>, empty: D)
      ensures this.config == config && this.empty == empty && tiers == map[] && topMarketIds == []
    {
      this.config, this.empty := config, empty;
      tiers, topMarketIds := map[], [];
    }

    method SetTopMarketIds(ids: seq<string>)
      modifies this`topMarketIds
      ensures topMarketIds == ids
    {
      topMarketIds := ids;
    }

    method SetTierUpdateStartTime(name: string, start: Option<int>)
      modifies this`tiers
      ensures tiers == Marked(old(tiers), name, start, empty)
      ensures tiers.Keys == old(tiers.Keys) + {name} && tiers[name].updateStartTime == start
      ensures if name in old(tiers)
              then tiers[name].data == old(tiers)[name].data && tiers[name].timestamp == old(tiers)[name].timestamp
              else tiers[name].data == empty && tiers[name].timestamp == ZERO_TIME
      ensures forall other :: other in old(tiers) && other != name ==> tiers[other] == old(tiers)[other]
    {
      if name !in tiers {
        tiers := tiers[name := TierData(empty, ZERO_TIME, start)];
      } else {
        tiers := tiers[name := tiers[name].(updateStartTime := start)];
      }
    }

    method CheckTier(tier: Tier, now: int, forceUpdate: bool) returns (shouldUpdate: bool, reset: bool)
      ensures shouldUpdate == Launches(tiers, tier, now, forceUpdate)
      ensures reset == Stuck(tiers, tier, now)
    {
      shouldUpdate, reset := false, false;
      if tier.name !in tiers {
        return true, false;
      }
      var tierData := tiers[tier.name];
      var isUpdating := tierData.updateStartTime.Some?;
      if isUpdating {
        var updateDuration := Since(now, tierData.updateStartTime.value);
        var maxUpdateDuration := TEN_MINUTES;
        if Wrap64(tier.updateInterval * 3) > maxUpdateDuration {
          maxUpdateDuration := Wrap64(tier.updateInterval * 3);
        }
        if updateDuration > maxUpdateDuration {
          isUpdating := false;
          reset := true;
        }
      }
      if forceUpdate {
        shouldUpdate := !isUpdating;
      } else if !isUpdating && Since(now, tierData.timestamp) >= tier.updateInterval {
        shouldUpdate := true;
      }
    }

    method CheckAllTiers(now: int, forceUpdate: bool) returns (launched: seq<Tier>, resets: seq<Tier>)
      ensures launched == LaunchedOf(tiers, config, now, forceUpdate)
      ensures Selects(config, launched, set i: nat | i < |config| && Launches(tiers, config[i], now, forceUpdate))
      ensures forall t :: t in resets <==> t in config && Stuck(tiers, t, now)
    {
      launched, resets := [], [];
      for i := 0 to |config|
        invariant launched == LaunchedOf(tiers, config[..i], now, forceUpdate)
        invariant forall t :: t in resets <==> t in config[..i] && Stuck(tiers, t, now)
      {
        assert config[..i + 1][..i] == config[..i];
        var shouldUpdate, reset := CheckTier(config[i], now, forceUpdate);
        if reset {
          resets := resets + [config[i]];
        }
        if shouldUpdate {
          launched := launched + [config[i]];
        }
      }
      assert config[..|config|] == config;
      LaunchedAreDue(tiers, config, now, forceUpdate);
    }

    /** The prices check does nothing before top ids exist, unless it is forced. */
    method CheckPriceTiers(now: int, forceUpdate: bool) returns (launched: seq<Tier>)
      ensures launched == if topMarketIds == [] && !forceUpdate then []
                          else LaunchedOf(tiers, config, now, forceUpdate)
      ensures topMarketIds != [] || forceUpdate ==>
                Selects(config, launched, set i: nat | i < |config| && Launches(tiers, config[i], now, forceUpdate))
    {
      if |topMarketIds| == 0 && !forceUpdate {
        return [];
      }
      var resets;
      launched, resets := CheckAllTiers(now, forceUpdate);
    }

    method CheckMarketTiers(now: int) returns (launched: seq<Tier>)
      ensures launched == LaunchedOf(tiers, config, now, false)
      ensures Selects(config, launched, set i: nat | i < |config| && Launches(tiers, config[i], now, false))
    {
      var resets;
      launched, resets := CheckAllTiers(now, false);
    }

    /**
      One undisturbed update of a price tier: marked at `started`, committed at
      `fetched`.  It leaves no mark, even when the range computation panics, and
      the entry changes only by a fetch that succeeds for exactly the tier's ids.
    */
    method FetchAndUpdatePriceTier(tier: Tier, started: int, fetch: seq<string> -> Result<D, string>, fetched: int)
      returns (slice: Slice)
      modifies this`tiers
      ensures WellFormed(tier) ==> Fetched(slice) == SliceOf(topMarketIds, tier)
      ensures topMarketIds == [] ==> slice.NoIds?
      ensures tiers == if slice.Ids? && fetch(slice.ids).Ok?
                       then Committed(old(tiers), tier.name, fetch(slice.ids).value, fetched)
                       else Marked(old(tiers), tier.name, None, empty)
      ensures tier.name in tiers && tiers[tier.name].updateStartTime.None?
      ensures slice.Ids? && fetch(slice.ids).Ok? ==>
                tiers[tier.name].data == fetch(slice.ids).value && tiers[tier.name].timestamp == fetched
      ensures !(slice.Ids? && fetch(slice.ids).Ok?) && tier.name in old(tiers) ==>
                tiers[tier.name].data == old(tiers)[tier.name].data
                && tiers[tier.name].timestamp == old(tiers)[tier.name].timestamp
    {
      SetTierUpdateStartTime(tier.name, Some(started));
      slice := PriceTierSlice(topMarketIds, tier);
      if slice.Ids? {
        var answer := fetch(slice.ids);
        if answer.Ok? {
          tiers := tiers[tier.name := TierData(answer.value, fetched, None)];
        }
      }
      SetTierUpdateStartTime(tier.name, None);
    }

    /** One undisturbed update of a market tier, which asks for pages instead of ids. */
    method FetchAndUpdateMarketTier(tier: Tier, started: int, fetch: Tier -> Result<D, string>, fetched: int)
      modifies this`tiers
      ensures tiers == if fetch(tier).Ok? then Committed(old(tiers), tier.name, fetch(tier).value, fetched)
                       else Marked(old(tiers), tier.name, None, empty)
      ensures tier.name in tiers && tiers[tier.name].updateStartTime.None?
      ensures fetch(tier).Ok? ==>
                tiers[tier.name].data == fetch(tier).value && tiers[tier.name].timestamp == fetched
      ensures fetch(tier).Err? && tier.name in old(tiers) ==>
                tiers[tier.name].data == old(tiers)[tier.name].data
                && tiers[tier.name].timestamp == old(tiers)[tier.name].timestamp
    {
      SetTierUpdateStartTime(tier.name, Some(started));
      var answer := fetch(tier);
      if answer.Ok? {
        tiers := tiers[tier.name := TierData(answer.value, fetched, None)];
      }
      SetTierUpdateStartTime(tier.name, None);
    }
  }

  // ---------- the machine: any interleaving of the locked sections ----------

  datatype Event = Started(name: string, at: int) | Succeeded(name: string, at: int)

  /** `log` records when updates began and when they succeeded. */
  datatype State<D> = State(clock: int, tiers: Tiers<D>, log: seq<Event>)

  /**
    Update goroutines and stuck-resets are not tied to each other: any of them
    may mark, commit or clear any tier at any time, in any order.
  */
  datatype Step<D> =
    | Tick(elapsed: nat)
    | Mark(name: string)
    | Commit(name: string, data: D)
    | ClearMark(name: string)

  function Do<D>(s: State<D>, step: Step<D>, empty: D): State<D> {
    match step
    case Tick(d) => s.(clock := s.clock + d)
    case Mark(name) =>
      s.(tiers := Marked(s.tiers, name, Some(s.clock), empty), log := s.log + [Started(name, s.clock)])
    case Commit(name, data) =>
      s.(tiers := Committed(s.tiers, name, data, s.clock), log := s.log + [Succeeded(name, s.clock)])
    case ClearMark(name) =>
      s.(tiers := Marked(s.tiers, name, None, empty))
  }

  function Run<D>(s: State<D>, steps: seq<Step<D>>, empty: D): State<D>
    decreases |steps|
  {
    if steps == [] then s else Run(Do(s, steps[0], empty), steps[1..], empty)
  }

  ghost predicate Inv<D>(s: State<D>) {
    && s.clock >= 0
    && forall name :: name in s.tiers ==>
         var e := s.tiers[name];
         && (e.timestamp == ZERO_TIME || (e.timestamp <= s.clock && Succeeded(name, e.timestamp) in s.log))
         && (e.updateStartTime.Some? ==>
               && e.timestamp <= e.updateStartTime.value <= s.clock
               && Started(name, e.updateStartTime.value) in s.log)
  }

  lemma StepKeepsInv<D>(s: State<D>, step: Step<D>, empty: D)
    requires Inv(s)
    ensures Inv(Do(s, step, empty))
  {
    var t := Do(s, step, empty);
    assert s.log <= t.log;
    if step.Mark? {
      assert t.log[|s.log|] == Started(step.name, s.clock);
    } else if step.Commit? {
      assert t.log[|s.log|] == Succeeded(step.name, s.clock);
    }
  }

  /** In every reachable state a mark is at least as late as the last success of its tier. */
  lemma {:induction false} ReachableInv<D>(s: State<D>, steps: seq<Step<D>>, empty: D)
    requires Inv(s)
    ensures Inv(Run(s, steps, empty))
    decreases |steps|
  {
    if steps != [] {
      StepKeepsInv(s, steps[0], empty);
      ReachableInv(Do(s, steps[0], empty), steps[1..], empty);
    }
  }

  lemma WrapSmall(x: int)
    requires IsDuration(x)
    ensures Wrap64(x) == x
  {
  }

  /** Tripling wraps to something below the largest duration, so saturated ages still exceed the bound. */
  lemma MaxUpdateDurationBound(interval: int)
    requires 0 < interval <= MAX_INT64
    ensures TEN_MINUTES <= MaxUpdateDuration(interval) < MAX_INT64
    ensures MaxUpdateDuration(interval) <= Max(TEN_MINUTES, 3 * interval)
    ensures MaxUpdateDuration(interval) == Max(TEN_MINUTES, 3 * interval) <==> 3 * interval <= MAX_INT64
  {
    var x := interval * 3;
    if x <= MAX_INT64 {
      WrapSmall(x);
    }
  }

  /** The initial state: nothing cached, a clock after 1970. */
  function Initial<D>(clock: nat): State<D> {
    State(clock, map[], [])
  }

  /**
    No tier stalls.  After any interleaving, a check that sees a mark older than
    max(10 minutes, 3 intervals) has that tier among the launched ones, forced or
    not, for every 64-bit interval.
  */
  lemma NoTierStalls<D>(clock: nat, steps: seq<Step<D>>, empty: D, config: seq<Tier>, i: nat, now: int, force: bool)
    requires i < |config| && 0 < config[i].updateInterval <= MAX_INT64
    requires var s := Run(Initial(clock), steps, empty);
             && config[i].name in s.tiers
             && s.tiers[config[i].name].updateStartTime.Some?
             && now - s.tiers[config[i].name].updateStartTime.value
                > Max(TEN_MINUTES, 3 * config[i].updateInterval)
    ensures Launches(Run(Initial(clock), steps, empty).tiers, config[i], now, force)
    ensures config[i] in LaunchedOf(Run(Initial(clock), steps, empty).tiers, config, now, force)
  {
    ReachableInv(Initial(clock), steps, empty);
    MaxUpdateDurationBound(config[i].updateInterval);
    var tiers := Run(Initial(clock), steps, empty).tiers;
    LaunchedAreDue(tiers, config, now, force);
    assert i in Due(tiers, config, now, force);
    SelectsMember(config, LaunchedOf(tiers, config, now, force), Due(tiers, config, now, force), config[i]);
  }

  /**
    Conversely, a check that leaves a tier alone can point to a reason: an
    update that began within the bound, or, unless forced, a success within the
    last interval.  `now` was read at most at the current clock.
  */
  lemma DeclinedMeansRecent<D>(clock: nat, steps: seq<Step<D>>, empty: D, tier: Tier, now: nat, force: bool)
    requires 0 < tier.updateInterval <= MAX_INT64
    requires !Launches(Run(Initial(clock), steps, empty).tiers, tier, now, force)
    ensures var log := Run(Initial(clock), steps, empty).log;
            || (exists at :: Started(tier.name, at) in log && now - at <= Max(TEN_MINUTES, 3 * tier.updateInterval))
            || (!force && exists at :: Succeeded(tier.name, at) in log && now - at < tier.updateInterval)
  {
    var s := Run(Initial(clock), steps, empty);
    ReachableInv(Initial(clock), steps, empty);
    MaxUpdateDurationBound(tier.updateInterval);
    var e := s.tiers[tier.name];
    if e.updateStartTime.Some? && !Stuck(s.tiers, tier, now) {
      assert Started(tier.name, e.updateStartTime.value) in s.log;
    } else {
      assert Since(now, e.timestamp) < tier.updateInterval;
      assert e.timestamp != ZERO_TIME;
      assert Succeeded(tier.name, e.timestamp) in s.log;
    }
  }

  /** When tripling the interval does not overflow, launching is exactly the documented rule. */
  lemma LaunchRule<D>(clock: nat, steps: seq<Step<D>>, empty: D, tier: Tier, now: nat, force: bool)
    requires 0 < tier.updateInterval && 3 * tier.updateInterval <= MAX_INT64
    ensures var tiers := Run(Initial(clock), steps, empty).tiers;
            Launches(tiers, tier, now, force) <==>
              tier.name !in tiers ||
              var e := tiers[tier.name];
              && (e.updateStartTime.None?
                  || now - e.updateStartTime.value > Max(TEN_MINUTES, 3 * tier.updateInterval))
              && (force || e.timestamp == ZERO_TIME || now - e.timestamp >= tier.updateInterval)
  {
    ReachableInv(Initial(clock), steps, empty);
    MaxUpdateDurationBound(tier.updateInterval);
  }
}
