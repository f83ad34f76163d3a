/**
  The publish/notify protocol over all interleavings (events/subscription.go
  with its publishers, such as handleTierPagesUpdate in
  coingecko_markets/service.go, and its watchers, such as onMarketListChanged in
  coingecko_prices/service.go).

  A writer publishes a new value and then emits: it walks over the registered
  channels under a read lock, so emissions overlap each other but not the
  registration and removal of channels.  A watcher takes its token, reads the
  value then published, and applies what it read.  Versions number the
  publications.
*/
module NotifyProtocol {
  import opened Wrappers

  // ---------- states ----------

  /** A writer after its publication: before, during and after its emission. */
  datatype Writer = Published | Emitting(remaining: set<nat>) | Done

  /** sync.Once around the body of Cancel. */
  datatype Once = NotRun | Running | Finished

  datatype Phase<V> =
    | Unwatched                        // subscribed, Watch not called yet
    | FirstCall                        // the immediate callback of Watch is to run
    | Waiting                          // the goroutine waits in its select
    | Took                             // it took a token and is about to call back
    | Holding(version: nat, value: V)  // the callback has read the value but not applied it
    | Exited

  /**
    `early`: Cancel began before Watch.  `unsubscribed`: Unsubscribe was called
    for the channel, not through Cancel.
  */
  datatype Watcher<V> = Watcher(
    registered: bool, open: bool, token: bool, closings: nat,
    once: Once, ctxDone: bool, immediate: bool, early: bool, unsubscribed: bool,
    phase: Phase<V>, applied: Option<V>, appliedVersion: nat)

  /** Version 0 is the first value; version k is publication number k. */
  datatype State<V> = State(first: V, published: seq<V>, writers: seq<Writer>, watchers: seq<Watcher<V>>)
  {
    function Version(): nat {
      |published|
    }

    function ValueAt(version: nat): V {
      if 0 < version <= |published| then published[version - 1] else first
    }

    function Value(): V {
      ValueAt(Version())
    }
  }

  function Initial<V>(v: V): State<V> {
    State(v, [], [], [])
  }

  function NewWatcher<V>(version: nat): Watcher<V> {
    Watcher(true, true, false, 0, NotRun, false, false, false, false, Unwatched, None, version)
  }

  // ---------- steps ----------

  datatype Step<V> =
    | Publish(value: V)
    | Announce                         // an emission is due, but the value has not changed
    | BeginEmit(w: nat)
    | NotifyOne(w: nat, c: nat)
    | StopEmit(w: nat)
    | EndEmit(w: nat)
    | Subscribe
    | StartWatch(c: nat, callNow: bool)
    | Receive(c: nat)
    | Read(c: nat)
    | Apply(c: nat)
    | CancelContext(c: nat)
    | Exit(c: nat)
    | BeginCancel(c: nat)
    | EndCancel(c: nat)
    | Unsubscribe(c: nat)

  /** No emission holds the read lock, so the write lock can be taken. */
  predicate Unlocked<V>(s: State<V>) {
    forall w :: 0 <= w < |s.writers| ==> !s.writers[w].Emitting?
  }

  function Registered<V>(s: State<V>): set<nat> {
    set c: nat | c < |s.watchers| && s.watchers[c].registered
  }

  predicate Enabled<V>(s: State<V>, e: Step<V>) {
    match e
    case Publish(_) => true
    case Announce => true
    case BeginEmit(w) => w < |s.writers| && s.writers[w].Published?
    case NotifyOne(w, c) => w < |s.writers| && s.writers[w].Emitting? && c in s.writers[w].remaining && c < |s.watchers|
    case StopEmit(w) => w < |s.writers| && s.writers[w].Emitting?
    case EndEmit(w) => w < |s.writers| && s.writers[w].Emitting? && s.writers[w].remaining == {}
    case Subscribe => Unlocked(s)
    case StartWatch(c, _) => c < |s.watchers| && s.watchers[c].phase.Unwatched?
    // a closed channel is always ready to be received from
    case Receive(c) => c < |s.watchers| && s.watchers[c].phase.Waiting? && (s.watchers[c].token || !s.watchers[c].open)
    case Read(c) => c < |s.watchers| && (s.watchers[c].phase.FirstCall? || s.watchers[c].phase.Took?)
    case Apply(c) => c < |s.watchers| && s.watchers[c].phase.Holding?
    case CancelContext(c) => c < |s.watchers|
    case Exit(c) => c < |s.watchers| && s.watchers[c].phase.Waiting? && s.watchers[c].ctxDone
    case BeginCancel(c) => c < |s.watchers|
    case EndCancel(c) => c < |s.watchers| && s.watchers[c].once.Running? && Unlocked(s)
    case Unsubscribe(c) => c < |s.watchers| && Unlocked(s)
  }

  /** Removing and closing the channel, if it is registered. */
  function Removed<V>(w: Watcher<V>): Watcher<V> {
    if w.registered then w.(registered := false, open := false, closings := w.closings + 1) else w
  }

  /** What a step does to the watcher it is about. */
  function WatcherAfter<V>(s: State<V>, e: Step<V>, w: Watcher<V>): Watcher<V> {
    match e
    case NotifyOne(_, _) => w.(token := true)
    case StartWatch(_, callNow) =>
      w.(immediate := callNow, early := !w.once.NotRun?, phase := if callNow then FirstCall else Waiting)
    case Receive(_) => w.(token := false, phase := Took)
    case Read(_) => w.(phase := Holding(s.Version(), s.Value()))
    case Apply(_) =>
      if w.phase.Holding? then w.(phase := Waiting, applied := Some(w.phase.value), appliedVersion := w.phase.version)
      else w
    case CancelContext(_) => w.(ctxDone := true)
    case Exit(_) => w.(phase := Exited)
    // before Watch there is no context to cancel
    case BeginCancel(_) =>
      if w.once.NotRun? then w.(once := Running, ctxDone := w.ctxDone || !w.phase.Unwatched?) else w
    case EndCancel(_) => Removed(w).(once := Finished)
    case Unsubscribe(_) => Removed(w).(unsubscribed := true)
    case _ => w
  }

  function Do<V>(s: State<V>, e: Step<V>): State<V>
    requires Enabled(s, e)
  {
    match e
    case Publish(v) => s.(published := s.published + [v], writers := s.writers + [Published])
    case Announce => s.(writers := s.writers + [Published])
    case BeginEmit(w) => s.(writers := s.writers[w := Emitting(Registered(s))])
    case NotifyOne(w, c) =>
      s.(writers := s.writers[w := Emitting(s.writers[w].remaining - {c})],
         watchers := s.watchers[c := WatcherAfter(s, e, s.watchers[c])])
    case StopEmit(w) => s.(writers := s.writers[w := Done])
    case EndEmit(w) => s.(writers := s.writers[w := Done])
    case Subscribe =>
      s.(watchers := s.watchers + [NewWatcher(s.Version())])
    case _ => s.(watchers := s.watchers[e.c := WatcherAfter(s, e, s.watchers[e.c])])
  }

  ghost predicate IsRun<V>(s: State<V>, es: seq<Step<V>>)
    decreases |es|
  {
    es != [] ==> Enabled(s, es[0]) && IsRun(Do(s, es[0]), es[1..])
  }

  ghost function After<V>(s: State<V>, es: seq<Step<V>>): State<V>
    requires IsRun(s, es)
    decreases |es|
  {
    if es == [] then s else After(Do(s, es[0]), es[1..])
  }

  // ---------- channel safety ----------

  /**
    A channel is registered exactly when it is open, is closed at most once, and
    is open until Cancel has run or Unsubscribe was called.
  */
  predicate ChannelSafe<V>(w: Watcher<V>) {
    && w.registered == w.open
    && w.closings == (if w.open then 0 else 1)
    && w.open == !(w.once.Finished? || w.unsubscribed)
  }

  /** An emission only still has registered channels before it. */
  ghost predicate EmitSafe<V>(s: State<V>, w: Writer) {
    w.Emitting? ==> w.remaining <= Registered(s)
  }

  ghost predicate Safe<V>(s: State<V>) {
    && (forall c :: 0 <= c < |s.watchers| ==> ChannelSafe(s.watchers[c]))
    && (forall w :: 0 <= w < |s.writers| ==> EmitSafe(s, s.writers[w]))
  }

  lemma SafeStep<V>(s: State<V>, e: Step<V>)
    requires Safe(s) && Enabled(s, e)
    ensures Safe(Do(s, e))
  {
    var t := Do(s, e);
    if e.Publish? || e.Announce? || e.BeginEmit? || e.StopEmit? || e.EndEmit? {
      assert Registered(t) == Registered(s);
    } else if e.Subscribe? {
      assert Registered(s) <= Registered(t);
    } else if e.EndCancel? || e.Unsubscribe? {
      assert Unlocked(t);
    } else {
      assert Registered(t) == Registered(s);
    }
  }

  lemma {:induction false} ReachableSafe<V>(s: State<V>, es: seq<Step<V>>)
    requires Safe(s) && IsRun(s, es)
    ensures Safe(After(s, es))
    decreases |es|
  {
    if es != [] {
      SafeStep(s, es[0]);
      ReachableSafe(Do(s, es[0]), es[1..]);
    }
  }

  /**
    In every reachable state a channel is registered exactly when it is open, is
    closed at most once, and no emission can send to a closed one.
  */
  lemma ChannelsAreSafe<V>(v: V, es: seq<Step<V>>)
    requires IsRun(Initial(v), es)
    ensures var s := After(Initial(v), es);
            && (forall c :: 0 <= c < |s.watchers| ==> ChannelSafe(s.watchers[c]))
            && (forall w: nat, c: nat :: Enabled(s, NotifyOne(w, c)) ==> s.watchers[c].open)
  {
    ReachableSafe(Initial(v), es);
    var s := After(Initial(v), es);
    forall w: nat, c: nat | Enabled(s, NotifyOne(w, c))
      ensures s.watchers[c].open
    {
      assert EmitSafe(s, s.writers[w]);
    }
  }

  // ---------- runs, one step longer ----------

  /** The last step of a run is taken from the state after the others. */
  lemma {:induction false} LastStep<V>(s: State<V>, es: seq<Step<V>>)
    requires IsRun(s, es) && es != []
    ensures var n := |es| - 1;
            && IsRun(s, es[..n]) && Enabled(After(s, es[..n]), es[n])
            && After(s, es) == Do(After(s, es[..n]), es[n])
    decreases |es|
  {
    var n := |es| - 1;
    if n > 0 {
      assert es[..n][1..] == es[1..][..n - 1];
      LastStep(Do(s, es[0]), es[1..]);
    } else {
      assert es[..0] == [] && es[1..] == [];
    }
  }

  lemma OneStep<V>(s: State<V>, e: Step<V>, rest: seq<Step<V>>)
    requires Enabled(s, e)
    ensures IsRun(s, [e] + rest) <==> IsRun(Do(s, e), rest)
    ensures IsRun(s, [e] + rest) ==> After(s, [e] + rest) == After(Do(s, e), rest)
  {
    assert ([e] + rest)[1..] == rest;
  }

  // ---------- progress ----------

  /** The steps that writers and watchers take of themselves once publications and cancellations stop. */
  predicate Internal<V>(s: State<V>, e: Step<V>) {
    && Enabled(s, e)
    && (e.BeginEmit? || e.NotifyOne? || e.EndEmit? || e.Read? || e.Apply?
        || (e.Receive? && s.watchers[e.c].token))
  }

  ghost predicate IsInternalRun<V>(s: State<V>, es: seq<Step<V>>)
    decreases |es|
  {
    es != [] ==> Internal(s, es[0]) && IsInternalRun(Do(s, es[0]), es[1..])
  }

  predicate WritersDone<V>(s: State<V>) {
    forall w :: 0 <= w < |s.writers| ==> s.writers[w].Done?
  }

  predicate Idle<V>(w: Watcher<V>) {
    w.phase.Waiting? && !w.token
  }

  /** A watcher with nothing to do: waiting without a token, not started, or gone. */
  predicate Settled<V>(w: Watcher<V>) {
    w.phase.Unwatched? || w.phase.Exited? || Idle(w)
  }

  function WriterWork(w: Writer, channels: nat): nat {
    match w
    case Published => 2 + 4 * channels
    case Emitting(remaining) => 1 + 4 * |remaining|
    case Done => 0
  }

  function WatcherWork<V>(w: Watcher<V>): nat {
    (if w.token then 3 else 0)
    + (if w.phase.Took? || w.phase.FirstCall? then 2 else if w.phase.Holding? then 1 else 0)
  }

  function WritersWork(ws: seq<Writer>, channels: nat): nat {
    if ws == [] then 0 else WriterWork(ws[0], channels) + WritersWork(ws[1..], channels)
  }

  function WatchersWork<V>(ws: seq<Watcher<V>>): nat {
    if ws == [] then 0 else WatcherWork(ws[0]) + WatchersWork(ws[1..])
  }

  function Work<V>(s: State<V>): nat {
    WritersWork(s.writers, |Registered(s)|) + WatchersWork(s.watchers)
  }

  lemma {:induction false} WritersWorkUpdate(ws: seq<Writer>, channels: nat, i: nat, w: Writer)
    requires i < |ws|
    ensures WritersWork(ws[i := w], channels) + WriterWork(ws[i], channels)
         == WritersWork(ws, channels) + WriterWork(w, channels)
  {
    if i > 0 {
      assert ws[i := w][1..] == ws[1..][i - 1 := w];
      WritersWorkUpdate(ws[1..], channels, i - 1, w);
    }
  }

  lemma {:induction false} WatchersWorkUpdate<V>(ws: seq<Watcher<V>>, i: nat, w: Watcher<V>)
    requires i < |ws|
    ensures WatchersWork(ws[i := w]) + WatcherWork(ws[i]) == WatchersWork(ws) + WatcherWork(w)
  {
    if i > 0 {
      assert ws[i := w][1..] == ws[1..][i - 1 := w];
      WatchersWorkUpdate(ws[1..], i - 1, w);
    }
  }

  lemma SameRegistered<V>(s: State<V>, e: Step<V>)
    requires Internal(s, e)
    ensures Registered(Do(s, e)) == Registered(s)
  {
    var t := Do(s, e);
    assert |t.watchers| == |s.watchers|;
    assert forall c :: 0 <= c < |s.watchers| ==> t.watchers[c].registered == s.watchers[c].registered;
  }

  /** Every internal step leaves less to do. */
  lemma InternalStepWorks<V>(s: State<V>, e: Step<V>)
    requires Safe(s) && Internal(s, e)
    ensures Work(Do(s, e)) < Work(s)
  {
    SameRegistered(s, e);
    if e.NotifyOne? {
      NotifyWorks(s, e);
    } else if e.BeginEmit? || e.EndEmit? {
      EmitWorks(s, e);
    } else {
      var t := Do(s, e);
      WatchersWorkUpdate(s.watchers, e.c, t.watchers[e.c]);
      assert WatcherWork(t.watchers[e.c]) < WatcherWork(s.watchers[e.c]);
    }
  }

  /** A notification pays four and costs at most three. */
  lemma NotifyWorks<V>(s: State<V>, e: Step<V>)
    requires Enabled(s, e) && e.NotifyOne?
    requires Registered(Do(s, e)) == Registered(s)
    ensures Work(Do(s, e)) < Work(s)
  {
    var t, n := Do(s, e), |Registered(s)|;
    WritersWorkUpdate(s.writers, n, e.w, t.writers[e.w]);
    WatchersWorkUpdate(s.watchers, e.c, t.watchers[e.c]);
    assert WriterWork(t.writers[e.w], n) + 4 == WriterWork(s.writers[e.w], n);
    assert WatcherWork(t.watchers[e.c]) <= WatcherWork(s.watchers[e.c]) + 3;
  }

  lemma EmitWorks<V>(s: State<V>, e: Step<V>)
    requires Enabled(s, e) && (e.BeginEmit? || e.EndEmit?)
    requires Registered(Do(s, e)) == Registered(s)
    ensures Work(Do(s, e)) < Work(s)
  {
    var t, n := Do(s, e), |Registered(s)|;
    WritersWorkUpdate(s.writers, n, e.w, t.writers[e.w]);
    assert WriterWork(t.writers[e.w], n) < WriterWork(s.writers[e.w], n);
  }

  /**
    Left to themselves, writers and watchers come to rest.  Internal steps in
    any order number at most the work at hand, and once none is left every
    emission has ended and every watcher is settled.
  */
  lemma {:induction false} InternalRunsEnd<V>(s: State<V>, es: seq<Step<V>>)
    requires Safe(s) && IsInternalRun(s, es)
    ensures IsRun(s, es) && |es| + Work(After(s, es)) <= Work(s)
    ensures (forall e :: !Internal(After(s, es), e)) <==>
              WritersDone(After(s, es))
              && forall c :: 0 <= c < |After(s, es).watchers| ==> Settled(After(s, es).watchers[c])
    decreases |es|
  {
    if es == [] {
      RestIsSettled(s);
    } else {
      InternalStepWorks(s, es[0]);
      SafeStep(s, es[0]);
      InternalRunsEnd(Do(s, es[0]), es[1..]);
    }
  }

  /** Nothing can move exactly when every writer is done and every watcher is settled. */
  lemma RestIsSettled<V>(s: State<V>)
    requires Safe(s)
    ensures (forall e :: !Internal(s, e)) <==>
              WritersDone(s) && forall c :: 0 <= c < |s.watchers| ==> Settled(s.watchers[c])
  {
    if forall e :: !Internal(s, e) {
      forall w | 0 <= w < |s.writers|
        ensures s.writers[w].Done?
      {
        WriterCanMove(s, w);
      }
      forall c | 0 <= c < |s.watchers|
        ensures Settled(s.watchers[c])
      {
        assert !Internal(s, Receive(c)) && !Internal(s, Read(c)) && !Internal(s, Apply(c));
      }
    }
  }

  lemma WriterCanMove<V>(s: State<V>, w: nat)
    requires Safe(s) && w < |s.writers|
    ensures !s.writers[w].Done? ==> exists e :: Internal(s, e)
  {
    match s.writers[w]
    case Published => assert Internal(s, BeginEmit(w));
    case Emitting(remaining) =>
      assert EmitSafe(s, s.writers[w]);
      if remaining == {} {
        assert Internal(s, EndEmit(w));
      } else {
        var c :| c in remaining;
        assert Internal(s, NotifyOne(w, c));
      }
    case Done =>
  }

  // ---------- a closed channel under a live context ----------

  predicate Watching<V>(w: Watcher<V>) {
    !w.phase.Unwatched? && !w.phase.Exited?
  }

  /** While the context of a started watcher lives, Cancel can only have begun before Watch. */
  predicate OnlyEarly<V>(w: Watcher<V>) {
    !w.phase.Unwatched? && !w.ctxDone ==> (w.early <==> !w.once.NotRun?)
  }

  lemma OnlyEarlyStep<V>(s: State<V>, e: Step<V>, w: Watcher<V>)
    requires OnlyEarly(w)
    requires e.EndCancel? ==> w.once.Running?
    requires e.StartWatch? ==> w.phase.Unwatched?
    requires e.Receive? || e.Read? || e.Apply? || e.Exit? ==> !w.phase.Unwatched?
    ensures OnlyEarly(WatcherAfter(s, e, w))
  {
  }

  lemma {:induction false} OnlyEarlyCancel<V>(s: State<V>, es: seq<Step<V>>)
    requires IsRun(s, es) && forall c :: 0 <= c < |s.watchers| ==> OnlyEarly(s.watchers[c])
    ensures forall c :: 0 <= c < |After(s, es).watchers| ==> OnlyEarly(After(s, es).watchers[c])
    decreases |es|
  {
    if es != [] {
      var t := Do(s, es[0]);
      forall c | 0 <= c < |t.watchers|
        ensures OnlyEarly(t.watchers[c])
      {
        if c < |s.watchers| && t.watchers[c] != s.watchers[c] {
          OnlyEarlyStep(s, es[0], s.watchers[c]);
        }
      }
      OnlyEarlyCancel(t, es[1..]);
    }
  }

  /**
    A watcher whose context lives reads from a closed channel exactly when
    Unsubscribe was called for it directly, or Cancel began before Watch and has
    run since.
  */
  lemma ClosedUnderLiveContext<V>(v: V, es: seq<Step<V>>, c: nat)
    requires IsRun(Initial(v), es) && c < |After(Initial(v), es).watchers|
    requires var w := After(Initial(v), es).watchers[c]; Watching(w) && !w.ctxDone
    ensures var w := After(Initial(v), es).watchers[c];
            !w.open <==> w.unsubscribed || (w.early && w.once.Finished?)
  {
    ReachableSafe(Initial(v), es);
    OnlyEarlyCancel(Initial(v), es);
  }

  /** A waiting watcher on a closed channel, whose context lives. */
  predicate Spinning<V>(s: State<V>, c: nat) {
    c < |s.watchers| && s.watchers[c].phase.Waiting? && !s.watchers[c].open && !s.watchers[c].ctxDone
  }

  function Rounds<V>(c: nat, n: nat): (es: seq<Step<V>>)
    ensures |es| == 3 * n
  {
    if n == 0 then [] else [Receive(c)] + ([Read(c)] + ([Apply(c)] + Rounds(c, n - 1)))
  }

  lemma OneRound<V>(s: State<V>, c: nat)
    requires Spinning(s, c)
    ensures Enabled(s, Receive(c)) && !Enabled(s, Exit(c))
    ensures var s1 := Do(s, Receive(c));
            && Enabled(s1, Read(c))
            && Enabled(Do(s1, Read(c)), Apply(c))
            && Spinning(Do(Do(s1, Read(c)), Apply(c)), c)
  {
  }

  /** Such a watcher can call back any number of times, without any emission and without ever being able to exit. */
  lemma {:induction false} SpinsForever<V>(s: State<V>, c: nat, n: nat)
    requires Spinning(s, c)
    ensures IsRun(s, Rounds(c, n)) && Spinning(After(s, Rounds(c, n)), c)
    decreases n
  {
    if n > 0 {
      OneRound(s, c);
      var s1 := Do(s, Receive(c));
      var s2 := Do(s1, Read(c));
      var rest := Rounds<V>(c, n - 1);
      SpinsForever(Do(s2, Apply(c)), c, n - 1);
      OneStep(s2, Apply(c), rest);
      OneStep(s1, Read(c), [Apply(c)] + rest);
      OneStep(s, Receive(c), [Read(c)] + ([Apply(c)] + rest));
    }
  }
}
