/**
  Market charts on demand: a request is rounded up to a shared bucket, answered
  from the cache or fetched, and cut back to what was asked
  (coingecko_market_chart/service.go, roundup_request_utils.go, types.go).
*/
module MarketChart {
  import opened Wrappers
  import opened Sequences
  import opened Strings
  import opened ChartData
  import opened CacheKeys
  import opened SharedCache

  datatype Params = Params(id: string, currency: string, days: string, interval: string, dataFilter: string)

  // ---------- validation ----------

  const VALID_INTERVALS := ["5m", "hourly", "daily"]
  const VALID_FIELDS := ["prices", "market_caps", "total_volumes"]

  predicate ValidDays(days: string) {
    days == "" || days == "max" || (Atoi(days).Some? && 1 <= Atoi(days).value <= 365)
  }

  predicate ValidParams(p: Params) {
    && TrimSpace(p.id) != ""
    && ValidDays(p.days)
    && (p.interval == "" || p.interval in VALID_INTERVALS)
    && (forall f :: f in FilterNames(p.dataFilter) ==> f in VALID_FIELDS)
  }

  method ParseDataFilters(dataFilter: string) returns (result: seq<string>)
    ensures result == FilterNames(dataFilter)
    ensures forall k :: k in result <==> NamedIn(dataFilter, k)
  {
    forall k: string
      ensures k in FilterNames(dataFilter) <==> NamedIn(dataFilter, k)
    {
      FilterNamesMean(dataFilter, k);
    }
    if TrimSpace(dataFilter) == "" {
      BlankHasNoNames(dataFilter);
      return [];
    }
    var filters := Split(dataFilter, ',');
    result := [];
    for i := 0 to |filters|
      invariant result == Names(filters[..i])
    {
      assert filters[..i + 1][..i] == filters[..i];
      var filter := TrimSpace(filters[i]);
      if filter != "" {
        result := result + [filter];
      }
    }
    assert filters[..|filters|] == filters;
  }

  predicate AllSpace(s: string) {
    forall i :: 0 <= i < |s| ==> IsSpace(s[i])
  }

  lemma {:induction false} TrimRightBlank(s: string)
    requires TrimRight(s) == ""
    ensures AllSpace(s)
  {
    if s != "" {
      TrimRightBlank(s[..|s| - 1]);
      assert forall i :: 0 <= i < |s| - 1 ==> s[i] == s[..|s| - 1][i];
    }
  }

  lemma {:induction false} TrimBlank(s: string)
    requires TrimSpace(s) == ""
    ensures AllSpace(s)
  {
    if s != "" && IsSpace(s[0]) {
      TrimBlank(s[1..]);
      assert forall i :: 1 <= i < |s| ==> s[i] == s[1..][i - 1];
    } else {
      TrimRightBlank(s);
    }
  }

  /** A blank filter has no comma, hence one part, which trims to nothing. */
  lemma BlankHasNoNames(s: string)
    requires TrimSpace(s) == ""
    ensures FilterNames(s) == []
  {
    TrimBlank(s);
    assert IndexOf(s, ',') == |s|;
    assert Split(s, ',') == [s];
    assert Names([s][..0]) == [];
  }

  method Validate(p: Params) returns (valid: bool)
    ensures valid <==> ValidParams(p)
    ensures valid <==>
              && TrimSpace(p.id) != ""
              && (p.days == "" || p.days == "max" || (Atoi(p.days).Some? && 1 <= Atoi(p.days).value <= 365))
              && p.interval in ["", "5m", "hourly", "daily"]
              && forall k :: NamedIn(p.dataFilter, k) ==> k in ["prices", "market_caps", "total_volumes"]
  {
    ValidMeans(p);
    if TrimSpace(p.id) == "" {
      return false;
    }
    if p.days != "" && p.days != "max" {
      var days := Atoi(p.days);
      if days.None? {
        return false;
      } else if days.value < 1 || days.value > 365 {
        return false;
      }
    }
    if p.interval != "" {
      var isValid := Among(p.interval, VALID_INTERVALS);
      if !isValid {
        return false;
      }
    }
    if p.dataFilter != "" {
      var filters := ParseDataFilters(p.dataFilter);
      var allValid := AllAmong(filters, VALID_FIELDS);
      return allValid;
    }
    BlankHasNoNames(p.dataFilter);
    return true;
  }

  method AllAmong(filters: seq<string>, valid: seq<string>) returns (allValid: bool)
    ensures allValid <==> forall f :: f in filters ==> f in valid
  {
    for i := 0 to |filters|
      invariant forall j :: 0 <= j < i ==> filters[j] in valid
    {
      var isValid := Among(filters[i], valid);
      if !isValid {
        return false;
      }
    }
    return true;
  }

  lemma ValidMeans(p: Params)
    ensures ValidParams(p) <==>
              && TrimSpace(p.id) != ""
              && (p.days == "" || p.days == "max" || (Atoi(p.days).Some? && 1 <= Atoi(p.days).value <= 365))
              && p.interval in ["", "5m", "hourly", "daily"]
              && forall k :: NamedIn(p.dataFilter, k) ==> k in ["prices", "market_caps", "total_volumes"]
  {
    forall k: string
      ensures k in FilterNames(p.dataFilter) <==> NamedIn(p.dataFilter, k)
    {
      FilterNamesMean(p.dataFilter, k);
    }
  }

  method Among(s: string, valid: seq<string>) returns (isValid: bool)
    ensures isValid <==> s in valid
  {
    isValid := false;
    for i := 0 to |valid|
      invariant s !in valid[..i]
    {
      if s == valid[i] {
        return true;
      }
    }
    assert valid[..|valid|] == valid;
  }

  // ---------- rounding ----------

  function RoundUp(p: Params, threshold: int): Params {
    if p.days == "" || p.days == "max" || Atoi(p.days).None? then p
    else p.(days := if Atoi(p.days).value <= threshold then Itoa(threshold) else "365")
  }

  /** The currency and days that stand in for empty ones. */
  function WithDefaults(p: Params): Params {
    p.(currency := if p.currency == "" then "usd" else p.currency, days := if p.days == "" then "30" else p.days)
  }

  /** Beyond the threshold a chart has daily data. */
  predicate Daily(days: string, threshold: int) {
    days == "max" || Atoi(days).None? || Atoi(days).value > threshold
  }

  predicate IsInt64(n: int) {
    MIN_INT64 <= n <= MAX_INT64
  }

  lemma Constants()
    ensures Atoi("365") == Some(365) && Atoi("30") == Some(30)
  {
    assert "365"[..2] == "36" && "36"[..1] == "3" && "3"[..0] == "";
    assert Value("") == 0 && Value("3") == 3 && Value("36") == 36 && Value("365") == 365;
    assert "30"[..1] == "3";
    assert Value("30") == 30;
  }

  /**
    For validated days, rounding only widens the window, rounding again changes
    nothing, and the rounded request has the granularity, and with it the
    lifetime, of the original.
  */
  lemma RoundingLaws(p: Params, threshold: int)
    requires IsInt64(threshold) && ValidDays(p.days)
    ensures RoundUp(RoundUp(p, threshold), threshold) == RoundUp(p, threshold)
    ensures p.days != "" ==> (Daily(RoundUp(p, threshold).days, threshold) <==> Daily(p.days, threshold))
    ensures p.days != "" && p.days != "max" ==>
              var r := Atoi(RoundUp(p, threshold).days);
              r.Some? && Atoi(p.days).value <= r.value && RoundUp(p, threshold).days != "max"
  {
    Constants();
    AtoiItoa(threshold);
    assert Atoi("max").None? by {
      assert !IsDigit("max"[0]);
    }
  }

  /** The bucket: the threshold for day counts up to it, a year for those beyond, and nothing else changes. */
  lemma BucketOfDays(p: Params, threshold: int)
    requires IsInt64(threshold) && ValidDays(p.days) && p.days != "" && p.days != "max"
    ensures Atoi(RoundUp(p, threshold).days) == Some(if Atoi(p.days).value <= threshold then threshold else 365)
    ensures RoundUp(p, threshold).(days := p.days) == p
  {
    Constants();
    AtoiItoa(threshold);
  }

  // ---------- the provider ----------

  /** The provider's full series for a coin, a currency, an interval, and daily or finer data. */
  type World = (string, string, string, bool) -> Chart

  function SeriesOf(world: World, p: Params, threshold: int): Chart {
    world(p.id, p.currency, p.interval, Daily(p.days, threshold))
  }

  /** The window that a provider which reads whole seconds gives to a number of days. */
  function WindowOf(days: string, now: int): Window {
    if days == "max" || Atoi(days).None? then UpTo(now)
    else Window(Some(Cutoff(now, Atoi(days).value)), Some(now))
  }

  /** A provider that answers exactly the points of its series within the requested days. */
  function Provider(world: World, p: Params, threshold: int, now: int): Chart {
    KeepChart(SeriesOf(world, p, threshold), WindowOf(p.days, now))
  }

  /** What the provider itself would answer to the request, with the data filter applied. */
  function Direct(world: World, p: Params, threshold: int, now: int): Chart {
    Select(Provider(world, p, threshold, now), p.dataFilter)
  }

  /** What a cached copy may know: nothing newer than its fetch. */
  function AsOf(c: Chart, fetched: int): Chart {
    KeepChart(c, UpTo(fetched))
  }

  lemma KeepSelect(c: Chart, dataFilter: string, w: Window)
    ensures KeepChart(Select(c, dataFilter), w) == Select(KeepChart(c, w), dataFilter)
  {
  }

  lemma KeepChartTwice(c: Chart, v: Window, w: Window, u: Window)
    requires forall p :: u.Contains(p) <==> v.Contains(p) && w.Contains(p)
    ensures KeepChart(KeepChart(c, v), w) == KeepChart(c, u)
  {
    forall k | k in c && c[k].Series?
      ensures Keep(Keep(c[k].points, v), w) == Keep(c[k].points, u)
    {
      KeepTwice(c[k].points, v, w, u);
    }
  }

  /**
    Rounding preserves the answer.  A reply cut at t1 from the rounded copy
    fetched at t0 is the provider's own reply at t1 without the points newer
    than t0.
  */
  lemma RoundingPreservesAnswer(world: World, p: Params, threshold: int, t0: int, t1: int)
    requires IsInt64(threshold) && ValidDays(p.days) && p.days != ""
    requires 0 <= t0 <= t1
    ensures Stripped(Provider(world, RoundUp(p, threshold), threshold, t0), p.days, p.dataFilter, t1)
            == AsOf(Direct(world, p, threshold, t1), t0)
  {
    RoundingLaws(p, threshold);
    var series := SeriesOf(world, p, threshold);
    assert SeriesOf(world, RoundUp(p, threshold), threshold) == series;
    var wide := WindowOf(RoundUp(p, threshold).days, t0);
    CutTwice(series, wide, p.days, p.dataFilter, t0, t1);
  }

  /** Both cuts of a series, for windows that contain the one asked for. */
  lemma CutTwice(series: Chart, wide: Window, days: string, dataFilter: string, t0: int, t1: int)
    requires ValidDays(days) && days != "" && t0 <= t1 && wide.hi == Some(t0)
    requires if days == "max" then wide.lo.None?
             else wide.lo.Some? && wide.lo.value <= Cutoff(t1, Atoi(days).value)
    ensures Stripped(KeepChart(series, wide), days, dataFilter, t1)
            == AsOf(Select(KeepChart(series, WindowOf(days, t1)), dataFilter), t0)
  {
    KeepSelect(KeepChart(series, WindowOf(days, t1)), dataFilter, UpTo(t0));
    if days == "max" {
      KeepChartTwice(series, UpTo(t1), UpTo(t0), UpTo(t0));
    } else {
      var cutoff := Cutoff(t1, Atoi(days).value);
      var both := Window(Some(cutoff), Some(t0));
      KeepSelect(KeepChart(series, wide), dataFilter, From(cutoff));
      KeepChartTwice(series, wide, From(cutoff), both);
      KeepChartTwice(series, WindowOf(days, t1), UpTo(t0), both);
    }
  }

  /**
    Against a provider that counts its days in milliseconds, the same holds for
    a series exactly when no point falls into the part of a second that the cut
    rounds away.
  */
  lemma MillisecondProvider(points: seq<Point>, d: int, rounded: int, t0: int, t1: int)
    requires 1 <= d <= rounded && 0 <= t0 <= t1
    ensures var copy := Keep(points, Window(Some(t0 - rounded * DAY_SECONDS * 1000), Some(t0)));
            var direct := Keep(points, Window(Some(t1 - d * DAY_SECONDS * 1000), Some(t1)));
            Keep(copy, From(Cutoff(t1, d))) == Keep(direct, UpTo(t0)) <==>
            forall p :: p in points ==>
              !(Max(Cutoff(t1, d), t0 - rounded * DAY_SECONDS * 1000) as real <= p.ts
                < (t1 - d * DAY_SECONDS * 1000) as real && p.ts <= t0 as real)
  {
    var lo := Max(Cutoff(t1, d), t0 - rounded * DAY_SECONDS * 1000);
    var exact := t1 - d * DAY_SECONDS * 1000;
    assert lo <= exact;
    var v, w := Window(Some(lo), Some(t0)), Window(Some(exact), Some(t0));
    KeepTwice(points, Window(Some(t0 - rounded * DAY_SECONDS * 1000), Some(t0)), From(Cutoff(t1, d)), v);
    KeepTwice(points, Window(Some(exact), Some(t1)), UpTo(t0), w);
    KeepSame(points, v, w);
  }

  /** At every time that is not a whole second some series is cut differently. */
  lemma MillisecondMismatch(d: int, rounded: int, t: int)
    requires 1 <= d < rounded && t >= 0 && t % 1000 != 0
    ensures var points := [Point(Cutoff(t, d) as real, 0.0)];
            var copy := Keep(points, Window(Some(t - rounded * DAY_SECONDS * 1000), Some(t)));
            var direct := Keep(points, Window(Some(t - d * DAY_SECONDS * 1000), Some(t)));
            Keep(copy, From(Cutoff(t, d))) != Keep(direct, UpTo(t))
  {
    var p := Point(Cutoff(t, d) as real, 0.0);
    var wide := Window(Some(t - rounded * DAY_SECONDS * 1000), Some(t));
    var narrow := Window(Some(t - d * DAY_SECONDS * 1000), Some(t));
    assert wide.Contains(p) && From(Cutoff(t, d)).Contains(p) && !narrow.Contains(p);
    KeepOne(p, wide);
    KeepOne(p, From(Cutoff(t, d)));
    KeepOne(p, narrow);
  }

  lemma KeepOne(p: Point, w: Window)
    ensures Keep([p], w) == if w.Contains(p) then [p] else []
  {
    assert [p][..0] == [];
  }

  // ---------- the service ----------

  datatype ChartError = InvalidParameters | FetchFailed

  datatype Settings = Settings(threshold: int, hourlyTTL: int, dailyTTL: int, defaultTTL: int, world: World)

  type Cache = map<string, Entry<Chart>>

  /** `now` is when the cache is asked or the fetch is answered, `later` when the reply is cut. */
  datatype Request = Request(params: Params, now: nat, later: nat, fetchOk: bool)

  function KeyOf(p: Params): string {
    ChartKey(p.id, p.currency, p.days, p.interval)
  }

  function Rounded(cfg: Settings, p: Params): Params {
    RoundUp(WithDefaults(p), cfg.threshold)
  }

  function Fetched(cfg: Settings, p: Params, at: int): Chart {
    Provider(cfg.world, p, cfg.threshold, at)
  }

  /** When a copy of a chart of so many days expires that was fetched at `at`. */
  function Lifetime(cfg: Settings, days: string, at: int): Option<int> {
    Expiry(if Daily(days, cfg.threshold) then cfg.dailyTTL else cfg.hourlyTTL, cfg.defaultTTL, at)
  }

  /** The chart for a rounded request: the cached copy, if it lives, or a fresh one. */
  function Loaded(cfg: Settings, cache: Cache, rounded: Params, now: nat, fetchOk: bool): Option<Chart> {
    if Has(cache, KeyOf(rounded), now) then Some(cache[KeyOf(rounded)].value)
    else if fetchOk then Some(Fetched(cfg, rounded, now))
    else None
  }

  function CacheLoaded(cfg: Settings, cache: Cache, rounded: Params, now: nat, fetchOk: bool): Cache {
    if Has(cache, KeyOf(rounded), now) || !fetchOk then cache
    else cache[KeyOf(rounded) := Entry(Fetched(cfg, rounded, now), Lifetime(cfg, rounded.days, now))]
  }

  function Answer(cfg: Settings, cache: Cache, q: Request): Result<Chart, ChartError> {
    if !ValidParams(q.params) then Err(InvalidParameters)
    else
      match Loaded(cfg, cache, Rounded(cfg, q.params), q.now, q.fetchOk)
      case None => Err(FetchFailed)
      case Some(c) => Ok(Stripped(c, q.params.days, q.params.dataFilter, q.later))
  }

  function CacheAfter(cfg: Settings, cache: Cache, q: Request): Cache {
    if !ValidParams(q.params) then cache
    else CacheLoaded(cfg, cache, Rounded(cfg, q.params), q.now, q.fetchOk)
  }

  /** The cache after requests one after the other. */
  function CacheAfterAll(cfg: Settings, cache: Cache, qs: seq<Request>): Cache
    decreases |qs|
  {
    if qs == [] then cache else CacheAfterAll(cfg, CacheAfter(cfg, cache, qs[0]), qs[1..])
  }

  function Answers(cfg: Settings, cache: Cache, qs: seq<Request>): seq<Result<Chart, ChartError>>
    decreases |qs|
  {
    if qs == [] then []
    else [Answer(cfg, cache, qs[0])] + Answers(cfg, CacheAfter(cfg, cache, qs[0]), qs[1..])
  }

  lemma ServeStep(cfg: Settings, cache: Cache, qs: seq<Request>, i: nat)
    requires i < |qs|
    ensures CacheAfterAll(cfg, cache, qs[i..]) == CacheAfterAll(cfg, CacheAfter(cfg, cache, qs[i]), qs[i + 1..])
    ensures Answers(cfg, cache, qs[i..])
         == [Answer(cfg, cache, qs[i])] + Answers(cfg, CacheAfter(cfg, cache, qs[i]), qs[i + 1..])
  {
    assert qs[i..][1..] == qs[i + 1..];
  }

  class MarketChartService {
    const cfg: Settings
    var cache: Cache

    constructor (cfg: Settings)
      ensures this.cfg == cfg && cache == map[]
    {
      this.cfg := cfg;
      cache := map[];
    }

    method SelectTTL(days: string) returns (ttl: int)
      ensures ttl == if Daily(days, cfg.threshold) then cfg.dailyTTL else cfg.hourlyTTL
      ensures days != "max" && Atoi(days).Some? && Atoi(days).value <= cfg.threshold ==> ttl == cfg.hourlyTTL
      ensures days == "max" || Atoi(days).None? || Atoi(days).value > cfg.threshold ==> ttl == cfg.dailyTTL
    {
      if days == "max" {
        return cfg.dailyTTL;
      }
      if days != "" {
        var n := Atoi(days);
        if n.Some? {
          if n.value <= cfg.threshold {
            return cfg.hourlyTTL;
          } else {
            return cfg.dailyTTL;
          }
        }
      }
      return cfg.dailyTTL;
    }

    /** The cache lookup and, on a miss, the fetch that fills the cache. */
    method LoadRounded(rounded: Params, now: nat, fetchOk: bool) returns (r: Option<Chart>)
      modifies this
      ensures r == Loaded(cfg, old(cache), rounded, now, fetchOk)
      ensures cache == CacheLoaded(cfg, old(cache), rounded, now, fetchOk)
    {
      var cacheKey := KeyOf(rounded);
      if Has(cache, cacheKey, now) {
        return Some(cache[cacheKey].value);
      }
      if !fetchOk {
        return None;
      }
      var chartData := Provider(cfg.world, rounded, cfg.threshold, now);
      var ttl := SelectTTL(rounded.days);
      cache := cache[cacheKey := Entry(chartData, Expiry(ttl, cfg.defaultTTL, now))];
      return Some(chartData);
    }

    method MarketChart(params: Params, now: nat, later: nat, fetchOk: bool) returns (r: Result<Chart, ChartError>)
      modifies this
      ensures r == Answer(cfg, old(cache), Request(params, now, later, fetchOk))
      ensures cache == CacheAfter(cfg, old(cache), Request(params, now, later, fetchOk))
    {
      var valid := Validate(params);
      if !valid {
        return Err(InvalidParameters);
      }
      var p := params;
      if p.currency == "" {
        p := p.(currency := "usd");
      }
      if p.days == "" {
        p := p.(days := "30");
      }
      var roundedParams := RoundUp(p, cfg.threshold);
      var chartData := LoadRounded(roundedParams, now, fetchOk);
      if chartData.None? {
        return Err(FetchFailed);
      }
      var strippedData := StripMarketChartResponse(params.days, params.dataFilter, chartData.value, later);
      return Ok(strippedData);
    }

    method Serve(qs: seq<Request>) returns (answers: seq<Result<Chart, ChartError>>)
      modifies this
      ensures cache == CacheAfterAll(cfg, old(cache), qs)
      ensures answers == Answers(cfg, old(cache), qs)
    {
      answers := [];
      ghost var start := cache;
      for i := 0 to |qs|
        invariant CacheAfterAll(cfg, start, qs) == CacheAfterAll(cfg, cache, qs[i..])
        invariant Answers(cfg, start, qs) == answers + Answers(cfg, cache, qs[i..])
      {
        ServeStep(cfg, cache, qs, i);
        var r := MarketChart(qs[i].params, qs[i].now, qs[i].later, qs[i].fetchOk);
        answers := answers + [r];
      }
    }
  }

  // ---------- which replies are right ----------

  /** The reply to a request from a copy that was fetched at `fetched`, cut at `later`. */
  function Reply(cfg: Settings, p: Params, fetched: int, later: int): Chart {
    if p.days == "" then Select(Fetched(cfg, Rounded(cfg, p), fetched), p.dataFilter)
    else AsOf(Direct(cfg.world, WithDefaults(p), cfg.threshold, later), fetched)
  }

  /** A reply is right when it is the provider's as of now, or as of a time no older than the request's own lifetime. */
  ghost predicate Right(cfg: Settings, q: Request, c: Chart) {
    exists fetched: nat :: Current(cfg, q, fetched) && c == Reply(cfg, q.params, fetched, q.later)
  }

  predicate Current(cfg: Settings, q: Request, fetched: nat) {
    && fetched <= q.now
    && (fetched == q.now || Live(Entry((), Lifetime(cfg, WithDefaults(q.params).days, fetched)), q.now))
  }

  lemma ReplyIsStripped(cfg: Settings, params: Params, fetched: int, later: int)
    requires ValidParams(params) && IsInt64(cfg.threshold) && 0 <= fetched <= later
    ensures Stripped(Fetched(cfg, Rounded(cfg, params), fetched), params.days, params.dataFilter, later)
            == Reply(cfg, params, fetched, later)
  {
    if params.days != "" {
      RoundingPreservesAnswer(cfg.world, WithDefaults(params), cfg.threshold, fetched, later);
    } else {
      assert Atoi("").None?;
    }
  }

  /** A request that a copy was fetched for, after defaults and rounding. */
  predicate IsOrigin(o: Params) {
    TrimSpace(o.id) != "" && o.currency != "" && PlainParts(o.days, o.interval)
  }

  lemma RoundedIsOrigin(cfg: Settings, p: Params)
    requires ValidParams(p) && IsInt64(cfg.threshold)
    ensures IsOrigin(Rounded(cfg, p))
    ensures ValidDays(WithDefaults(p).days) && WithDefaults(p).days != ""
    ensures Daily(Rounded(cfg, p).days, cfg.threshold) <==> Daily(WithDefaults(p).days, cfg.threshold)
  {
    Constants();
    RoundingLaws(WithDefaults(p), cfg.threshold);
  }

  /** The copy under this key was fetched at some time for some request with this key. */
  ghost predicate Traced(cfg: Settings, cache: Cache, clock: nat, key: string)
    requires key in cache
  {
    exists o: Params, at: nat :: CameFrom(cfg, key, cache[key], o, at) && at <= clock
  }

  predicate CameFrom(cfg: Settings, key: string, e: Entry<Chart>, o: Params, at: nat) {
    IsOrigin(o) && key == KeyOf(o) && e == Entry(Fetched(cfg, o, at), Lifetime(cfg, o.days, at))
  }

  ghost predicate AllTraced(cfg: Settings, cache: Cache, clock: nat) {
    forall key :: key in cache ==> Traced(cfg, cache, clock, key)
  }

  lemma TracedStep(cfg: Settings, cache: Cache, clock: nat, q: Request)
    requires IsInt64(cfg.threshold) && AllTraced(cfg, cache, clock) && clock <= q.now
    ensures AllTraced(cfg, CacheAfter(cfg, cache, q), q.now)
  {
    var after := CacheAfter(cfg, cache, q);
    var rounded := Rounded(cfg, q.params);
    if ValidParams(q.params) {
      RoundedIsOrigin(cfg, q.params);
    }
    forall key | key in after
      ensures Traced(cfg, after, q.now, key)
    {
      if key in cache && after[key] == cache[key] {
        var o: Params, at: nat :| CameFrom(cfg, key, cache[key], o, at) && at <= clock;
        assert CameFrom(cfg, key, after[key], o, at);
      } else {
        assert CameFrom(cfg, key, after[key], rounded, q.now);
      }
    }
  }

  /** Requests in the order of time, each cut after its data is there. */
  predicate Timely(qs: seq<Request>, from: nat) {
    && (forall i :: 0 <= i < |qs| ==> from <= qs[i].now <= qs[i].later)
    && (forall i, j :: 0 <= i < j < |qs| ==> qs[i].now <= qs[j].now)
  }

  lemma {:induction false} RunIsTraced(cfg: Settings, cache: Cache, clock: nat, qs: seq<Request>, end: nat)
    requires IsInt64(cfg.threshold) && AllTraced(cfg, cache, clock)
    requires Timely(qs, clock) && clock <= end && forall i :: 0 <= i < |qs| ==> qs[i].now <= end
    ensures AllTraced(cfg, CacheAfterAll(cfg, cache, qs), end)
    decreases |qs|
  {
    if qs != [] {
      TracedStep(cfg, cache, clock, qs[0]);
      RunIsTraced(cfg, CacheAfter(cfg, cache, qs[0]), qs[0].now, qs[1..], end);
    } else {
      forall key | key in cache
        ensures Traced(cfg, cache, end, key)
      {
        var o: Params, at: nat :| CameFrom(cfg, key, cache[key], o, at) && at <= clock;
        assert CameFrom(cfg, key, cache[key], o, at);
      }
    }
  }

  // ---------- one copy for a whole bucket ----------

  predicate NumericDays(p: Params) {
    ValidParams(p) && p.days != "" && p.days != "max"
  }

  /** Two requests with day counts that differ in nothing else but the data filter. */
  predicate DaysApart(p: Params, q: Params) {
    NumericDays(p) && NumericDays(q) && p.(days := q.days, dataFilter := q.dataFilter) == q
  }

  /** They share their cached copy exactly when their day counts are on the same side of the threshold. */
  lemma SameBucketExactly(cfg: Settings, p: Params, q: Params)
    requires IsInt64(cfg.threshold) && DaysApart(p, q)
    ensures KeyOf(Rounded(cfg, p)) == KeyOf(Rounded(cfg, q)) <==>
              (Atoi(p.days).value <= cfg.threshold <==> Atoi(q.days).value <= cfg.threshold)
  {
    var a, b := Rounded(cfg, p), Rounded(cfg, q);
    BucketOfDays(WithDefaults(p), cfg.threshold);
    BucketOfDays(WithDefaults(q), cfg.threshold);
    RoundedIsOrigin(cfg, p);
    RoundedIsOrigin(cfg, q);
    ChartKeyParts(a.id, a.currency, a.days, a.interval, b.id, b.currency, b.days, b.interval);
  }

  /** An empty currency is usd, and empty days are fetched as 30. */
  lemma DefaultsShare(cfg: Settings, p: Params)
    ensures p.currency == "" ==> Rounded(cfg, p) == Rounded(cfg, p.(currency := "usd"))
    ensures p.days == "" ==> Rounded(cfg, p) == Rounded(cfg, p.(days := "30"))
  {
  }

  /** How long a copy for this many days lives: the lifetime of its side of the threshold, zero for the default. */
  function Lives(cfg: Settings, days: int): int {
    var ttl := if days <= cfg.threshold then cfg.hourlyTTL else cfg.dailyTTL;
    if ttl == 0 then cfg.defaultTTL else ttl
  }

  predicate StillLives(cfg: Settings, days: int, fetched: int, now: int) {
    Lives(cfg, days) <= 0 || now <= fetched + Lives(cfg, days)
  }

  /** A copy that lives until then is not replaced before. */
  lemma {:induction false} EntryStays(cfg: Settings, cache: Cache, qs: seq<Request>, key: string, until: nat)
    requires Has(cache, key, until) && forall i :: 0 <= i < |qs| ==> qs[i].now <= until
    ensures key in CacheAfterAll(cfg, cache, qs) && CacheAfterAll(cfg, cache, qs)[key] == cache[key]
    decreases |qs|
  {
    if qs != [] {
      EntryStays(cfg, CacheAfter(cfg, cache, qs[0]), qs[1..], key, until);
    }
  }

  /** The copy that a fetch leaves behind, and when it is found again. */
  lemma FetchLeavesCopy(cfg: Settings, cache: Cache, q: Request, now: nat)
    requires IsInt64(cfg.threshold) && NumericDays(q.params)
    requires q.fetchOk && !Has(cache, KeyOf(Rounded(cfg, q.params)), q.now)
    ensures var key, after := KeyOf(Rounded(cfg, q.params)), CacheAfter(cfg, cache, q);
            && (Has(after, key, now) <==> StillLives(cfg, Atoi(q.params.days).value, q.now, now))
            && key in after && after[key].value == Fetched(cfg, Rounded(cfg, q.params), q.now)
  {
    RoundedIsOrigin(cfg, q.params);
  }

  /**
    Copies are shared.  Once a request was fetched, every request of its bucket
    is answered from that very copy while it lives, whatever else is asked in
    between, even when its own fetch would fail.
  */
  lemma CopyIsShared(cfg: Settings, cache: Cache, first: Request, qs: seq<Request>, q: Request)
    requires IsInt64(cfg.threshold) && DaysApart(first.params, q.params)
    requires Atoi(first.params.days).value <= cfg.threshold <==> Atoi(q.params.days).value <= cfg.threshold
    requires first.fetchOk && !Has(cache, KeyOf(Rounded(cfg, first.params)), first.now)
    requires forall i :: 0 <= i < |qs| ==> qs[i].now <= q.now
    requires StillLives(cfg, Atoi(first.params.days).value, first.now, q.now)
    ensures Answer(cfg, CacheAfterAll(cfg, CacheAfter(cfg, cache, first), qs), q)
            == Ok(Stripped(Fetched(cfg, Rounded(cfg, first.params), first.now),
                           q.params.days, q.params.dataFilter, q.later))
  {
    FetchLeavesCopy(cfg, cache, first, q.now);
    SameBucketExactly(cfg, first.params, q.params);
    EntryStays(cfg, CacheAfter(cfg, cache, first), qs, KeyOf(Rounded(cfg, first.params)), q.now);
  }

  /** Right after such a fetch, a request of the bucket that cannot fetch is answered exactly while the copy lives. */
  lemma SharedExactlyWhileItLives(cfg: Settings, cache: Cache, first: Request, q: Request)
    requires IsInt64(cfg.threshold) && DaysApart(first.params, q.params)
    requires Atoi(first.params.days).value <= cfg.threshold <==> Atoi(q.params.days).value <= cfg.threshold
    requires first.fetchOk && !Has(cache, KeyOf(Rounded(cfg, first.params)), first.now)
    requires !q.fetchOk
    ensures var r := Answer(cfg, CacheAfter(cfg, cache, first), q);
            && (r.Ok? <==> StillLives(cfg, Atoi(first.params.days).value, first.now, q.now))
            && (r.Err? ==> r == Err(FetchFailed))
  {
    FetchLeavesCopy(cfg, cache, first, q.now);
    SameBucketExactly(cfg, first.params, q.params);
  }

  // ---------- which requests share their copies ----------

  /** Position k of id:currency can be read as the colon between another valid id and a non-empty currency. */
  predicate SplitsAt(id: string, currency: string, k: nat) {
    var whole := id + ":" + currency;
    k != |id| && k + 1 < |whole| && whole[k] == ':' && TrimSpace(whole[..k]) != ""
  }

  ghost predicate Ambiguous(id: string, currency: string) {
    exists k: nat :: SplitsAt(id, currency, k)
  }

  lemma PlainIsUnambiguous(id: string, currency: string)
    requires NoColon(id) && NoColon(currency)
    ensures !Ambiguous(id, currency)
  {
    var whole := id + ":" + currency;
    assert forall k :: 0 <= k < |whole| && k != |id| ==> whole[k] != ':';
  }

  /** Fetched requests that share their key are the same, up to the data filter, unless one of them is ambiguous. */
  lemma OriginMatches(o: Params, p: Params)
    requires IsOrigin(o) && IsOrigin(p) && KeyOf(o) == KeyOf(p) && !Ambiguous(p.id, p.currency)
    ensures o.(dataFilter := p.dataFilter) == p
  {
    ChartKeyParts(o.id, o.currency, o.days, o.interval, p.id, p.currency, p.days, p.interval);
    var whole := p.id + ":" + p.currency;
    var k := |o.id|;
    assert whole == o.id + ":" + o.currency;
    assert whole[k] == ':' && whole[..k] == o.id;
    assert !SplitsAt(p.id, p.currency, k);
    assert whole[..|p.id|] == p.id && whole[|p.id| + 1..] == p.currency;
    assert whole[k + 1..] == o.currency;
  }

  /** After any run, an unambiguous request is answered rightly. */
  lemma UnambiguousIsRight(cfg: Settings, qs: seq<Request>, q: Request)
    requires IsInt64(cfg.threshold) && Timely(qs + [q], 0)
    requires !Ambiguous(q.params.id, WithDefaults(q.params).currency)
    requires Answer(cfg, CacheAfterAll(cfg, map[], qs), q).Ok?
    ensures Right(cfg, q, Answer(cfg, CacheAfterAll(cfg, map[], qs), q).value)
  {
    assert (qs + [q])[|qs|] == q;
    assert forall i :: 0 <= i < |qs| ==> (qs + [q])[i] == qs[i];
    RunIsTraced(cfg, map[], 0, qs, q.now);
    RightFrom(cfg, CacheAfterAll(cfg, map[], qs), q);
  }

  lemma RightFrom(cfg: Settings, cache: Cache, q: Request)
    requires IsInt64(cfg.threshold) && q.now <= q.later && AllTraced(cfg, cache, q.now)
    requires !Ambiguous(q.params.id, WithDefaults(q.params).currency)
    requires Answer(cfg, cache, q).Ok?
    ensures Right(cfg, q, Answer(cfg, cache, q).value)
  {
    var rounded := Rounded(cfg, q.params);
    RoundedIsOrigin(cfg, q.params);
    var fetched: nat := q.now;
    var key := KeyOf(rounded);
    if Has(cache, key, q.now) {
      assert Traced(cfg, cache, q.now, key);
      var o: Params, at: nat :| CameFrom(cfg, key, cache[key], o, at) && at <= q.now;
      OriginMatches(o, rounded);
      fetched := at;
    }
    ReplyIsStripped(cfg, q.params, fetched, q.later);
    assert Current(cfg, q, fetched);
  }

  /** Every reply to a request for this coin and currency is right, whatever was asked before. */
  ghost predicate AlwaysRight(id: string, currency: string) {
    forall cfg: Settings, qs: seq<Request>, q: Request ::
      ConcernsCoin(cfg, qs, q, id, currency) && Answer(cfg, CacheAfterAll(cfg, map[], qs), q).Ok? ==>
        Right(cfg, q, Answer(cfg, CacheAfterAll(cfg, map[], qs), q).value)
  }

  ghost predicate ConcernsCoin(cfg: Settings, qs: seq<Request>, q: Request, id: string, currency: string) {
    && IsInt64(cfg.threshold) && Timely(qs + [q], 0)
    && q.params.id == id && WithDefaults(q.params).currency == currency
  }

  /** Provider data for every coin but one. */
  function OthersOnly(id: string): World {
    (coin: string, currency: string, interval: string, daily: bool) =>
      if coin == id then map[] else map["prices" := Series([])]
  }

  lemma TwinKeys(id: string, currency: string, k: nat)
    requires SplitsAt(id, currency, k)
    ensures var whole := id + ":" + currency;
            && |whole[..k]| != |id|
            && ChartKey(whole[..k], whole[k + 1..], "max", "") == ChartKey(id, currency, "max", "")
  {
    var whole := id + ":" + currency;
    assert whole == whole[..k] + ":" + whole[k + 1..];
    ChartKeyParts(whole[..k], whole[k + 1..], "max", "", id, currency, "max", "");
  }

  function TwinSettings(id: string): Settings {
    Settings(90, 0, 0, 0, OthersOnly(id))
  }

  /** A request for all data, made and answered at time 0. */
  function AskAll(id: string, currency: string): Request {
    Request(Params(id, currency, "max", "", ""), 0, 0, true)
  }

  lemma TwinIsCached(twin: string, currency: string, id: string)
    requires TrimSpace(twin) != "" && currency != "" && twin != id
    ensures CacheAfterAll(TwinSettings(id), map[], [AskAll(twin, currency)])
            == map[ChartKey(twin, currency, "max", "") := Entry(map["prices" := Series([])], None)]
  {
    BlankHasNoNames("");
    assert [AskAll(twin, currency)][1..] == [];
    assert Fetched(TwinSettings(id), AskAll(twin, currency).params, 0) == map["prices" := Series([])];
  }

  /** From the twin's copy no reply is right. */
  lemma TwinIsServed(id: string, currency: string, key: string)
    requires TrimSpace(id) != "" && currency != "" && key == ChartKey(id, currency, "max", "")
    ensures var copy: Chart := map["prices" := Series([])];
            && Answer(TwinSettings(id), map[key := Entry(copy, None)], AskAll(id, currency)) == Ok(copy)
            && !Right(TwinSettings(id), AskAll(id, currency), copy)
  {
    var cfg, q := TwinSettings(id), AskAll(id, currency);
    var copy: Chart := map["prices" := Series([])];
    BlankHasNoNames("");
    assert "prices" in copy;
    forall fetched: nat
      ensures copy != Reply(cfg, q.params, fetched, q.later)
    {
      assert Reply(cfg, q.params, fetched, q.later) == map[];
    }
  }

  /** An ambiguous request that follows its twin is answered from the twin's chart. */
  lemma WrongCoin(id: string, currency: string, k: nat)
    requires TrimSpace(id) != "" && currency != "" && SplitsAt(id, currency, k)
    ensures var whole := id + ":" + currency;
            var cache := CacheAfterAll(TwinSettings(id), map[], [AskAll(whole[..k], whole[k + 1..])]);
            var r := Answer(TwinSettings(id), cache, AskAll(id, currency));
            r == Ok(map["prices" := Series([])]) && !Right(TwinSettings(id), AskAll(id, currency), r.value)
  {
    var whole := id + ":" + currency;
    TwinKeys(id, currency, k);
    TwinIsCached(whole[..k], whole[k + 1..], id);
    TwinIsServed(id, currency, ChartKey(whole[..k], whole[k + 1..], "max", ""));
  }

  lemma SometimesWrong(id: string, currency: string, k: nat)
    requires TrimSpace(id) != "" && currency != "" && SplitsAt(id, currency, k)
    ensures !AlwaysRight(id, currency)
  {
    var whole := id + ":" + currency;
    var qs, q := [AskAll(whole[..k], whole[k + 1..])], AskAll(id, currency);
    WrongCoin(id, currency, k);
    assert ConcernsCoin(TwinSettings(id), qs, q, id, currency);
  }

  /**
    Replies for a coin and a currency are right after all runs of all services,
    if and only if no other colon of id:currency, with a valid id before it and
    something after it, could be taken for the one in between.
  */
  lemma RepliesAreRight(id: string, currency: string)
    requires TrimSpace(id) != "" && currency != ""
    ensures AlwaysRight(id, currency) <==> !Ambiguous(id, currency)
  {
    if Ambiguous(id, currency) {
      var k: nat :| SplitsAt(id, currency, k);
      SometimesWrong(id, currency, k);
    } else {
      forall cfg: Settings, qs: seq<Request>, q: Request
        | ConcernsCoin(cfg, qs, q, id, currency) && Answer(cfg, CacheAfterAll(cfg, map[], qs), q).Ok?
        ensures Right(cfg, q, Answer(cfg, CacheAfterAll(cfg, map[], qs), q).value)
      {
        UnambiguousIsRight(cfg, qs, q);
      }
    }
  }
}
