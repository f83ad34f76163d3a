/**
  Overlapping market chart requests (coingecko_market_chart/service.go).

  Each HTTP request is served by a goroutine of its own.  It looks into the
  cache, fetches on a miss, stores what it fetched, and cuts its reply; between
  these steps any other request may take any of its own, and time may pass.
*/
module ChartRequests {
  import opened Wrappers
  import opened Strings
  import opened ChartData
  import opened SharedCache
  import opened MarketChart

  // ---------- the machine ----------

  datatype Stage =
    | Looking
    | Fetching
    | Storing(chart: Chart)
    | Cutting(copy: Chart)
    | Replied(r: Result<Chart, ChartError>)

  datatype Pending = Pending(params: Params, arrived: nat, stage: Stage)

  datatype Machine = Machine(clock: nat, cache: Cache, requests: seq<Pending>)

  const EMPTY := Machine(0, map[], [])

  datatype Step =
    | Tick(elapsed: nat)
    | Arrive(params: Params)
    | Look(i: nat)
    | Fetch(i: nat, ok: bool)
    | Store(i: nat)
    | Cut(i: nat)

  /** The stage of a request after its own step; a step that is not its next one changes nothing. */
  function NextStage(cfg: Settings, clock: nat, cache: Cache, p: Pending, e: Step): Stage {
    var rounded := Rounded(cfg, p.params);
    match (e, p.stage)
    case (Look(_), Looking) =>
      if Has(cache, KeyOf(rounded), clock) then Cutting(cache[KeyOf(rounded)].value) else Fetching
    case (Fetch(_, ok), Fetching) => if ok then Storing(Fetched(cfg, rounded, clock)) else Replied(Err(FetchFailed))
    case (Store(_), Storing(c)) => Cutting(c)
    case (Cut(_), Cutting(c)) => Replied(Ok(Stripped(c, p.params.days, p.params.dataFilter, clock)))
    case _ => p.stage
  }

  function NextCache(cfg: Settings, clock: nat, cache: Cache, p: Pending, e: Step): Cache {
    if e.Store? && p.stage.Storing? then
      var rounded := Rounded(cfg, p.params);
      cache[KeyOf(rounded) := Entry(p.stage.chart, Lifetime(cfg, rounded.days, clock))]
    else cache
  }

  function Do(cfg: Settings, m: Machine, e: Step): Machine {
    match e
    case Tick(d) => m.(clock := m.clock + d)
    case Arrive(params) =>
      var stage := if ValidParams(params) then Looking else Replied(Err(InvalidParameters));
      m.(requests := m.requests + [Pending(params, m.clock, stage)])
    case _ =>
      if e.i >= |m.requests| then m
      else
        var p := m.requests[e.i];
        m.(cache := NextCache(cfg, m.clock, m.cache, p, e),
           requests := m.requests[e.i := p.(stage := NextStage(cfg, m.clock, m.cache, p, e))])
  }

  function Run(cfg: Settings, m: Machine, es: seq<Step>): Machine
    decreases |es|
  {
    if es == [] then m else Run(cfg, Do(cfg, m, es[0]), es[1..])
  }

  // ---------- where copies come from ----------

  /** The entry was fetched at `at` for a request with this key, and stored at `stored`. */
  predicate StoredFrom(cfg: Settings, key: string, e: Entry<Chart>, o: Params, at: nat, stored: nat) {
    && IsOrigin(o) && key == KeyOf(o) && at <= stored
    && e == Entry(Fetched(cfg, o, at), Lifetime(cfg, o.days, stored))
  }

  ghost predicate StoredBy(cfg: Settings, key: string, e: Entry<Chart>, clock: nat) {
    exists o: Params, at: nat, stored: nat :: StoredFrom(cfg, key, e, o, at, stored) && stored <= clock
  }

  /**
    A copy that a request may use: fetched since it arrived, or stored so late
    before it was looked up that the request's own lifetime had not passed.
  */
  predicate Usable(cfg: Settings, params: Params, arrived: nat, clock: nat, fetched: nat, stored: nat, looked: nat) {
    && fetched <= clock
    && (arrived <= fetched
        || (fetched <= stored <= looked && arrived <= looked <= clock
            && Live(Entry((), Lifetime(cfg, WithDefaults(params).days, stored)), looked)))
  }

  ghost predicate GoodCopy(cfg: Settings, params: Params, arrived: nat, clock: nat, c: Chart) {
    exists fetched: nat, stored: nat, looked: nat ::
      Usable(cfg, params, arrived, clock, fetched, stored, looked) && c == Fetched(cfg, Rounded(cfg, params), fetched)
  }

  /** The provider's own reply, cut at some time since, as of the time of a usable copy. */
  ghost predicate RightReply(cfg: Settings, params: Params, arrived: nat, clock: nat, c: Chart) {
    exists later: nat, fetched: nat, stored: nat, looked: nat ::
      later <= clock && Usable(cfg, params, arrived, later, fetched, stored, looked)
      && c == Reply(cfg, params, fetched, later)
  }

  ghost predicate FetchedSince(cfg: Settings, params: Params, arrived: nat, clock: nat, c: Chart) {
    exists fetched: nat :: arrived <= fetched <= clock && c == Fetched(cfg, Rounded(cfg, params), fetched)
  }

  ghost predicate Unambiguous(p: Params) {
    !Ambiguous(p.id, WithDefaults(p).currency)
  }

  ghost predicate Sound(cfg: Settings, clock: nat, p: Pending) {
    && p.arrived <= clock
    && (ValidParams(p.params) || p.stage == Replied(Err(InvalidParameters)))
    && match p.stage
       case Looking => true
       case Fetching => true
       case Storing(c) => FetchedSince(cfg, p.params, p.arrived, clock, c)
       case Cutting(c) => Unambiguous(p.params) ==> GoodCopy(cfg, p.params, p.arrived, clock, c)
       case Replied(r) => r.Ok? && Unambiguous(p.params) ==> RightReply(cfg, p.params, p.arrived, clock, r.value)
  }

  ghost predicate Inv(cfg: Settings, m: Machine) {
    && IsInt64(cfg.threshold)
    && (forall key :: key in m.cache ==> StoredBy(cfg, key, m.cache[key], m.clock))
    && (forall i :: 0 <= i < |m.requests| ==> Sound(cfg, m.clock, m.requests[i]))
  }

  // ---------- every step keeps the copies traceable ----------

  lemma SoundLater(cfg: Settings, clock: nat, later: nat, p: Pending)
    requires Sound(cfg, clock, p) && clock <= later
    ensures Sound(cfg, later, p)
  {
    match p.stage
    case Storing(c) =>
      var fetched: nat :| p.arrived <= fetched <= clock && c == Fetched(cfg, Rounded(cfg, p.params), fetched);
    case Cutting(c) =>
      if Unambiguous(p.params) {
        var fetched: nat, stored: nat, looked: nat :|
          Usable(cfg, p.params, p.arrived, clock, fetched, stored, looked)
          && c == Fetched(cfg, Rounded(cfg, p.params), fetched);
        assert Usable(cfg, p.params, p.arrived, later, fetched, stored, looked);
      }
    case _ =>
  }

  /** A live copy is usable for every unambiguous request that looks it up. */
  lemma LookedUp(cfg: Settings, m: Machine, p: Pending)
    requires Inv(cfg, m) && ValidParams(p.params) && p.arrived <= m.clock && Unambiguous(p.params)
    requires Has(m.cache, KeyOf(Rounded(cfg, p.params)), m.clock)
    ensures GoodCopy(cfg, p.params, p.arrived, m.clock, m.cache[KeyOf(Rounded(cfg, p.params))].value)
  {
    var rounded := Rounded(cfg, p.params);
    var key := KeyOf(rounded);
    RoundedIsOrigin(cfg, p.params);
    var o: Params, at: nat, stored: nat :| StoredFrom(cfg, key, m.cache[key], o, at, stored) && stored <= m.clock;
    OriginMatches(o, rounded);
    assert m.cache[key].value == Fetched(cfg, rounded, at);
    assert Usable(cfg, p.params, p.arrived, m.clock, at, stored, m.clock);
  }

  lemma CutIsRight(cfg: Settings, clock: nat, p: Pending)
    requires IsInt64(cfg.threshold) && Sound(cfg, clock, p) && p.stage.Cutting? && Unambiguous(p.params)
    ensures RightReply(cfg, p.params, p.arrived, clock,
                       Stripped(p.stage.copy, p.params.days, p.params.dataFilter, clock))
  {
    var fetched: nat, stored: nat, looked: nat :|
      Usable(cfg, p.params, p.arrived, clock, fetched, stored, looked)
      && p.stage.copy == Fetched(cfg, Rounded(cfg, p.params), fetched);
    ReplyIsStripped(cfg, p.params, fetched, clock);
  }

  lemma FreshIsGood(cfg: Settings, params: Params, arrived: nat, clock: nat, c: Chart)
    requires FetchedSince(cfg, params, arrived, clock, c)
    ensures GoodCopy(cfg, params, arrived, clock, c)
  {
    var fetched: nat :| arrived <= fetched <= clock && c == Fetched(cfg, Rounded(cfg, params), fetched);
    assert Usable(cfg, params, arrived, clock, fetched, 0, 0);
  }

  /** A request's own step keeps it sound. */
  lemma SoundStep(cfg: Settings, m: Machine, p: Pending, e: Step)
    requires Inv(cfg, m) && Sound(cfg, m.clock, p)
    ensures Sound(cfg, m.clock, p.(stage := NextStage(cfg, m.clock, m.cache, p, e)))
  {
    var next := NextStage(cfg, m.clock, m.cache, p, e);
    if next != p.stage {
      match p.stage
      case Looking =>
        if next.Cutting? && Unambiguous(p.params) {
          LookedUp(cfg, m, p);
        }
      case Fetching =>
      case Storing(c) => FreshIsGood(cfg, p.params, p.arrived, m.clock, c);
      case Cutting(c) =>
        if Unambiguous(p.params) {
          CutIsRight(cfg, m.clock, p);
        }
      case Replied(_) =>
    }
  }

  lemma StoreStep(cfg: Settings, m: Machine, p: Pending, e: Step, key: string)
    requires Inv(cfg, m) && Sound(cfg, m.clock, p) && key in NextCache(cfg, m.clock, m.cache, p, e)
    ensures StoredBy(cfg, key, NextCache(cfg, m.clock, m.cache, p, e)[key], m.clock)
  {
    if e.Store? && p.stage.Storing? && key == KeyOf(Rounded(cfg, p.params)) {
      RoundedIsOrigin(cfg, p.params);
      var fetched: nat :| p.arrived <= fetched <= m.clock
                          && p.stage.chart == Fetched(cfg, Rounded(cfg, p.params), fetched);
      assert StoredFrom(cfg, key, NextCache(cfg, m.clock, m.cache, p, e)[key],
                        Rounded(cfg, p.params), fetched, m.clock);
    }
  }

  lemma RequestStep(cfg: Settings, m: Machine, e: Step)
    requires Inv(cfg, m) && !e.Tick? && !e.Arrive? && e.i < |m.requests|
    ensures Inv(cfg, Do(cfg, m, e))
  {
    var p, t := m.requests[e.i], Do(cfg, m, e);
    SoundStep(cfg, m, p, e);
    forall key | key in t.cache
      ensures StoredBy(cfg, key, t.cache[key], t.clock)
    {
      StoreStep(cfg, m, p, e, key);
    }
    forall i | 0 <= i < |t.requests|
      ensures Sound(cfg, t.clock, t.requests[i])
    {
      assert i != e.i ==> t.requests[i] == m.requests[i];
    }
  }

  lemma ArriveStep(cfg: Settings, m: Machine, e: Step)
    requires Inv(cfg, m) && e.Arrive?
    ensures Inv(cfg, Do(cfg, m, e))
  {
    var t := Do(cfg, m, e);
    assert Sound(cfg, t.clock, t.requests[|m.requests|]);
    forall i | 0 <= i < |t.requests|
      ensures Sound(cfg, t.clock, t.requests[i])
    {
      assert i < |m.requests| ==> t.requests[i] == m.requests[i];
    }
  }

  lemma TickStep(cfg: Settings, m: Machine, e: Step)
    requires Inv(cfg, m) && e.Tick?
    ensures Inv(cfg, Do(cfg, m, e))
  {
    var t := Do(cfg, m, e);
    forall key | key in t.cache
      ensures StoredBy(cfg, key, t.cache[key], t.clock)
    {
      var o: Params, at: nat, stored: nat :| StoredFrom(cfg, key, m.cache[key], o, at, stored) && stored <= m.clock;
      assert StoredFrom(cfg, key, t.cache[key], o, at, stored);
    }
    forall i | 0 <= i < |t.requests|
      ensures Sound(cfg, t.clock, t.requests[i])
    {
      SoundLater(cfg, m.clock, t.clock, m.requests[i]);
    }
  }

  lemma InvStep(cfg: Settings, m: Machine, e: Step)
    requires Inv(cfg, m)
    ensures Inv(cfg, Do(cfg, m, e))
  {
    if e.Tick? {
      TickStep(cfg, m, e);
    } else if e.Arrive? {
      ArriveStep(cfg, m, e);
    } else if e.i < |m.requests| {
      RequestStep(cfg, m, e);
    }
  }

  lemma {:induction false} ReachableInv(cfg: Settings, m: Machine, es: seq<Step>)
    requires Inv(cfg, m)
    ensures Inv(cfg, Run(cfg, m, es))
    decreases |es|
  {
    if es != [] {
      InvStep(cfg, m, es[0]);
      ReachableInv(cfg, Do(cfg, m, es[0]), es[1..]);
    }
  }

  // ---------- a request that no other overlaps ----------

  /** The steps of request number i, taken at once. */
  function Alone(params: Params, i: nat, ok: bool): seq<Step> {
    [Arrive(params)] + ([Look(i)] + ([Fetch(i, ok)] + ([Store(i)] + ([Cut(i)] + []))))
  }

  lemma OneStep(cfg: Settings, m: Machine, e: Step, rest: seq<Step>)
    ensures Run(cfg, m, [e] + rest) == Run(cfg, Do(cfg, m, e), rest)
  {
    assert ([e] + rest)[1..] == rest;
  }

  lemma OwnStep(cfg: Settings, m: Machine, before: seq<Pending>, p: Pending, e: Step)
    requires m.requests == before + [p] && !e.Tick? && !e.Arrive? && e.i == |before|
    ensures var t := Do(cfg, m, e);
            && t.clock == m.clock && t.cache == NextCache(cfg, m.clock, m.cache, p, e)
            && t.requests == before + [p.(stage := NextStage(cfg, m.clock, m.cache, p, e))]
  {
  }

  /** The stages of a request alone are the cases of Answer, and it stores what CacheAfter stores. */
  lemma StagesAreAnswer(cfg: Settings, clock: nat, cache: Cache, i: nat, params: Params, ok: bool)
    ensures var p1 := Pending(params, clock, if ValidParams(params) then Looking else Replied(Err(InvalidParameters)));
            var p2 := p1.(stage := NextStage(cfg, clock, cache, p1, Look(i)));
            var p3 := p2.(stage := NextStage(cfg, clock, cache, p2, Fetch(i, ok)));
            var after := NextCache(cfg, clock, cache, p3, Store(i));
            var p4 := p3.(stage := NextStage(cfg, clock, cache, p3, Store(i)));
            && after == CacheAfter(cfg, cache, Request(params, clock, clock, ok))
            && NextStage(cfg, clock, after, p4, Cut(i))
               == Replied(Answer(cfg, cache, Request(params, clock, clock, ok)))
  {
  }

  /** Undisturbed, a request is answered and changes the cache as MarketChart says for one request. */
  lemma AloneIsAnswer(cfg: Settings, m: Machine, params: Params, ok: bool)
    ensures var q := Request(params, m.clock, m.clock, ok);
            var t := Run(cfg, m, Alone(params, |m.requests|, ok));
            && t.clock == m.clock && t.cache == CacheAfter(cfg, m.cache, q)
            && t.requests == m.requests + [Pending(params, m.clock, Replied(Answer(cfg, m.cache, q)))]
  {
    var n := |m.requests|;
    var m1 := Do(cfg, m, Arrive(params));
    var m2 := Do(cfg, m1, Look(n));
    var m3 := Do(cfg, m2, Fetch(n, ok));
    var m4 := Do(cfg, m3, Store(n));
    FiveSteps(cfg, m, Arrive(params), Look(n), Fetch(n, ok), Store(n), Cut(n));
    OwnStep(cfg, m1, m.requests, m1.requests[n], Look(n));
    OwnStep(cfg, m2, m.requests, m2.requests[n], Fetch(n, ok));
    OwnStep(cfg, m3, m.requests, m3.requests[n], Store(n));
    OwnStep(cfg, m4, m.requests, m4.requests[n], Cut(n));
    StagesAreAnswer(cfg, m.clock, m.cache, n, params, ok);
  }

  lemma FiveSteps(cfg: Settings, m: Machine, a: Step, b: Step, c: Step, d: Step, e: Step)
    ensures Run(cfg, m, [a] + ([b] + ([c] + ([d] + ([e] + [])))))
            == Do(cfg, Do(cfg, Do(cfg, Do(cfg, Do(cfg, m, a), b), c), d), e)
  {
    var m1 := Do(cfg, m, a);
    var m2 := Do(cfg, m1, b);
    var m3 := Do(cfg, m2, c);
    OneStep(cfg, Do(cfg, m3, d), e, []);
    OneStep(cfg, m3, d, [e] + []);
    OneStep(cfg, m2, c, [d] + ([e] + []));
    OneStep(cfg, m1, b, [c] + ([d] + ([e] + [])));
    OneStep(cfg, m, a, [b] + ([c] + ([d] + ([e] + []))));
  }

  // ---------- which replies are right ----------

  /** The reply that request number i of the run has had. */
  ghost predicate Replies(cfg: Settings, es: seq<Step>, i: nat, params: Params, c: Chart) {
    var t := Run(cfg, EMPTY, es);
    i < |t.requests| && t.requests[i].params == params && t.requests[i].stage == Replied(Ok(c))
  }

  ghost predicate RightAt(cfg: Settings, es: seq<Step>, i: nat, c: Chart)
    requires i < |Run(cfg, EMPTY, es).requests|
  {
    var t := Run(cfg, EMPTY, es);
    RightReply(cfg, t.requests[i].params, t.requests[i].arrived, t.clock, c)
  }

  /** Every reply to a request for this coin and currency is right, whatever requests overlap it or came before. */
  ghost predicate AlwaysRight(id: string, currency: string) {
    forall cfg: Settings, es: seq<Step>, i: nat, params: Params, c: Chart ::
      (IsInt64(cfg.threshold) && params.id == id && WithDefaults(params).currency == currency
       && Replies(cfg, es, i, params, c)) ==> RightAt(cfg, es, i, c)
  }

  lemma ReplyIsRight(cfg: Settings, es: seq<Step>, i: nat, params: Params, c: Chart)
    requires IsInt64(cfg.threshold) && Unambiguous(params) && Replies(cfg, es, i, params, c)
    ensures RightAt(cfg, es, i, c)
  {
    ReachableInv(cfg, EMPTY, es);
    assert Sound(cfg, Run(cfg, EMPTY, es).clock, Run(cfg, EMPTY, es).requests[i]);
  }

  lemma {:induction false} RunThenRun(cfg: Settings, m: Machine, a: seq<Step>, b: seq<Step>)
    ensures Run(cfg, m, a + b) == Run(cfg, Run(cfg, m, a), b)
    decreases |a|
  {
    if a == [] {
      assert a + b == b;
    } else {
      assert (a + b)[1..] == a[1..] + b;
      RunThenRun(cfg, Do(cfg, m, a[0]), a[1..], b);
    }
  }

  /** First the twin of an ambiguous request, then the request itself, which is answered from the twin's chart. */
  lemma TwinThenRequest(id: string, currency: string, k: nat)
    requires TrimSpace(id) != "" && currency != "" && SplitsAt(id, currency, k)
    ensures !AlwaysRight(id, currency)
  {
    var whole := id + ":" + currency;
    var cfg := TwinSettings(id);
    var twin, params := AskAll(whole[..k], whole[k + 1..]).params, AskAll(id, currency).params;
    var first, second := Alone(twin, 0, true), Alone(params, 1, true);
    AloneIsAnswer(cfg, EMPTY, twin, true);
    AloneIsAnswer(cfg, Run(cfg, EMPTY, first), params, true);
    RunThenRun(cfg, EMPTY, first, second);
    WrongCoin(id, currency, k);
    var c: Chart := map["prices" := Series([])];
    assert CacheAfterAll(cfg, map[], [AskAll(whole[..k], whole[k + 1..])]) == Run(cfg, EMPTY, first).cache by {
      assert [AskAll(whole[..k], whole[k + 1..])][1..] == [];
    }
    assert Replies(cfg, first + second, 1, params, c);
    NeverTheTwins(id, currency, c, 0, 0);
    assert !RightAt(cfg, first + second, 1, c);
  }

  lemma NeverTheTwins(id: string, currency: string, c: Chart, arrived: nat, clock: nat)
    requires currency != "" && "prices" in c
    ensures !RightReply(TwinSettings(id), AskAll(id, currency).params, arrived, clock, c)
  {
    forall fetched: nat, later: nat
      ensures c != Reply(TwinSettings(id), AskAll(id, currency).params, fetched, later)
    {
      assert Reply(TwinSettings(id), AskAll(id, currency).params, fetched, later) == map[];
    }
  }

  /**
    Over all runs of overlapping requests, replies for a coin and a currency are
    right if and only if no other colon of id:currency, with a valid id before it
    and something after it, could be taken for the one in between.
  */
  lemma OverlappingRepliesAreRight(id: string, currency: string)
    requires TrimSpace(id) != "" && currency != ""
    ensures AlwaysRight(id, currency) <==> !Ambiguous(id, currency)
  {
    if Ambiguous(id, currency) {
      var k: nat :| SplitsAt(id, currency, k);
      TwinThenRequest(id, currency, k);
    } else {
      forall cfg: Settings, es: seq<Step>, i: nat, params: Params, c: Chart
        | IsInt64(cfg.threshold) && params.id == id && WithDefaults(params).currency == currency
          && Replies(cfg, es, i, params, c)
        ensures RightAt(cfg, es, i, c)
      {
        ReplyIsRight(cfg, es, i, params, c);
      }
    }
  }
}
