/**
  What the notifications of NotifyProtocol deliver (events/subscription.go).

  A watcher may lag behind the published value, but an update is lost to it only
  in one way: the context of an emission ends before the watcher was notified,
  and nothing else is on its way.  This module says exactly which step loses an
  update, which steps make up for it, and what a watcher holds in either case.
*/
module Delivery {
  import opened Wrappers
  import opened NotifyProtocol

  // ---------- versions ----------

  /** The version the watcher's last callback read; before any, the one at its subscription. */
  function SeenVersion<V>(w: Watcher<V>): nat {
    if w.phase.Holding? then w.phase.version else w.appliedVersion
  }

  /** What the watcher read or applied is the value of the version it carries, and an immediate call came first. */
  ghost predicate Honest<V>(s: State<V>, w: Watcher<V>) {
    && SeenVersion(w) <= s.Version() && w.appliedVersion <= s.Version()
    && (w.phase.Holding? ==> w.phase.value == s.ValueAt(w.phase.version))
    && (w.applied.Some? ==> w.applied == Some(s.ValueAt(w.appliedVersion)))
    && (w.immediate && (w.phase.Waiting? || w.phase.Took?) ==> w.applied.Some?)
    && (w.phase.Unwatched? ==> !w.immediate)
  }

  ghost predicate Inv<V>(s: State<V>) {
    && Safe(s)
    && forall c :: 0 <= c < |s.watchers| ==> Honest(s, s.watchers[c])
  }

  /** A step keeps a watcher honest. */
  lemma HonestAfter<V>(s: State<V>, e: Step<V>, w: Watcher<V>)
    requires Honest(s, w)
    requires e.Read? ==> w.phase.FirstCall? || w.phase.Took?
    requires e.Receive? || e.Exit? ==> w.phase.Waiting?
    requires e.StartWatch? ==> w.phase.Unwatched?
    ensures Honest(s, WatcherAfter(s, e, w))
  {
  }

  lemma HonestLater<V>(s: State<V>, t: State<V>, w: Watcher<V>)
    requires Honest(s, w)
    requires t.first == s.first && s.published <= t.published
    ensures Honest(t, w)
  {
  }

  lemma HonestStep<V>(s: State<V>, e: Step<V>, c: nat)
    requires Enabled(s, e) && c < |Do(s, e).watchers|
    requires c < |s.watchers| ==> Honest(s, s.watchers[c])
    ensures Honest(Do(s, e), Do(s, e).watchers[c])
  {
    var t := Do(s, e);
    if c < |s.watchers| {
      var w := s.watchers[c];
      if t.watchers[c] != w {
        HonestAfter(s, e, w);
        HonestLater(s, t, WatcherAfter(s, e, w));
      } else {
        HonestLater(s, t, w);
      }
    }
  }

  lemma InvStep<V>(s: State<V>, e: Step<V>)
    requires Inv(s) && Enabled(s, e)
    ensures Inv(Do(s, e))
  {
    SafeStep(s, e);
    forall c | 0 <= c < |Do(s, e).watchers|
      ensures Honest(Do(s, e), Do(s, e).watchers[c])
    {
      HonestStep(s, e, c);
    }
  }

  lemma {:induction false} ReachableInv<V>(s: State<V>, es: seq<Step<V>>)
    requires Inv(s) && IsRun(s, es)
    ensures Inv(After(s, es))
    decreases |es|
  {
    if es != [] {
      InvStep(s, es[0]);
      ReachableInv(Do(s, es[0]), es[1..]);
    }
  }

  /** In every reachable state, what a watcher has applied is the published value of the version it carries. */
  lemma AppliedWasPublished<V>(v: V, es: seq<Step<V>>, c: nat)
    requires IsRun(Initial(v), es)
    requires c < |After(Initial(v), es).watchers|
    ensures var s := After(Initial(v), es);
            var w := s.watchers[c];
            && w.appliedVersion <= s.Version()
            && (w.applied.Some? ==> w.applied == Some(s.ValueAt(w.appliedVersion)))
  {
    ReachableInv(Initial(v), es);
    assert Honest(After(Initial(v), es), After(Initial(v), es).watchers[c]);
  }

  // ---------- which steps lose an update ----------

  /** The watcher is bound to read the value again. */
  predicate WillRead<V>(w: Watcher<V>) {
    w.token || w.phase.FirstCall? || w.phase.Took?
  }

  /** The writer has published and has not yet come to this channel. */
  predicate Owes(w: Writer, c: nat) {
    w.Published? || (w.Emitting? && c in w.remaining)
  }

  ghost predicate WriterOwes<V>(s: State<V>, c: nat) {
    exists w :: 0 <= w < |s.writers| && Owes(s.writers[w], c)
  }

  /** If the watcher last read an old version, it will read again or is owed a notification. */
  ghost predicate NotLost<V>(s: State<V>, c: nat) {
    c < |s.watchers| && s.watchers[c].registered && SeenVersion(s.watchers[c]) < s.Version() ==>
      WillRead(s.watchers[c]) || WriterOwes(s, c)
  }

  /** An emission is broken off that alone would have told this watcher of a version it has not read. */
  ghost predicate Breaks<V>(s: State<V>, e: Step<V>, c: nat) {
    && e.StopEmit? && Enabled(s, e) && c in s.writers[e.w].remaining
    && c < |s.watchers| && s.watchers[c].registered
    && SeenVersion(s.watchers[c]) < s.Version() && !WillRead(s.watchers[c])
    && forall w :: 0 <= w < |s.writers| && w != e.w ==> !Owes(s.writers[w], c)
  }

  /** Steps after which nothing is lost: a new emission, an immediate call, the end of the registration. */
  predicate Restores<V>(e: Step<V>, c: nat) {
    || e.Publish? || e.Announce?
    || (e.StartWatch? && e.c == c && e.callNow)
    || ((e.EndCancel? || e.Unsubscribe?) && e.c == c)
  }

  /** What a writer owes a registered channel after a step. */
  lemma OwesAfter<V>(s: State<V>, e: Step<V>, c: nat)
    requires Safe(s) && Enabled(s, e) && c < |s.watchers| && s.watchers[c].registered
    ensures WriterOwes(Do(s, e), c) <==>
              || e.Publish? || e.Announce?
              || (exists w :: 0 <= w < |s.writers| && Owes(s.writers[w], c) && StillOwes(s, e, w, c))
  {
    var t := Do(s, e);
    if e.Publish? || e.Announce? {
      assert Owes(t.writers[|s.writers|], c);
    } else {
      assert |t.writers| == |s.writers|;
      forall w | 0 <= w < |s.writers|
        ensures Owes(t.writers[w], c) <==> Owes(s.writers[w], c) && StillOwes(s, e, w, c)
      {
        assert EmitSafe(s, s.writers[w]);
      }
    }
  }

  /** The step does not pay or drop the writer's debt to the channel. */
  predicate StillOwes<V>(s: State<V>, e: Step<V>, w: nat, c: nat) {
    !(e.NotifyOne? && e.w == w && e.c == c) && !(e.StopEmit? && e.w == w)
  }

  /**
    Every step, exactly: afterwards nothing is lost to the watcher unless the
    step is an emission broken off as above, or something was lost already and
    the step does not make up for it.
  */
  lemma NotLostAfter<V>(s: State<V>, e: Step<V>, c: nat)
    requires Inv(s) && Enabled(s, e)
    ensures NotLost(Do(s, e), c) <==> !Breaks(s, e, c) && (NotLost(s, c) || Restores(e, c))
  {
    if c < |s.watchers| && s.watchers[c].registered {
      assert Honest(s, s.watchers[c]) && ChannelSafe(s.watchers[c]);
      OwesAfter(s, e, c);
    }
  }

  // ---------- whole runs ----------

  /** Step number i of the run loses an update to the watcher. */
  ghost predicate BreaksAt<V>(s: State<V>, es: seq<Step<V>>, c: nat, i: nat) {
    i < |es| && IsRun(s, es[..i]) && Breaks(After(s, es[..i]), es[i], c)
  }

  predicate RestoresAt<V>(es: seq<Step<V>>, c: nat, i: nat) {
    i < |es| && Restores(es[i], c)
  }

  /** Whatever the run lost to the watcher was made up for later. */
  ghost predicate Informed<V>(s: State<V>, es: seq<Step<V>>, c: nat) {
    forall i: nat :: BreaksAt(s, es, c, i) ==> exists j: nat :: i < j && RestoresAt(es, c, j)
  }

  /** The steps before the last break and restore what they do in the shorter run. */
  lemma InPrefix<V>(s: State<V>, es: seq<Step<V>>, c: nat, i: nat)
    requires es != [] && i < |es| - 1
    ensures BreaksAt(s, es, c, i) <==> BreaksAt(s, es[..|es| - 1], c, i)
    ensures RestoresAt(es, c, i) <==> RestoresAt(es[..|es| - 1], c, i)
  {
    assert es[..|es| - 1][..i] == es[..i];
  }

  lemma InformedBefore<V>(s: State<V>, es: seq<Step<V>>, c: nat)
    requires es != [] && Informed(s, es, c) && !Restores(es[|es| - 1], c)
    ensures Informed(s, es[..|es| - 1], c)
  {
    var before := es[..|es| - 1];
    forall i: nat | BreaksAt(s, before, c, i)
      ensures exists j: nat :: i < j && RestoresAt(before, c, j)
    {
      InPrefix(s, es, c, i);
      var j: nat :| i < j && RestoresAt(es, c, j);
      InPrefix(s, es, c, j);
    }
  }

  lemma InformedLater<V>(s: State<V>, es: seq<Step<V>>, c: nat)
    requires es != [] && !BreaksAt(s, es, c, |es| - 1)
    requires Informed(s, es[..|es| - 1], c) || RestoresAt(es, c, |es| - 1)
    ensures Informed(s, es, c)
  {
    var before := es[..|es| - 1];
    forall i: nat | BreaksAt(s, es, c, i)
      ensures exists j: nat :: i < j && RestoresAt(es, c, j)
    {
      InPrefix(s, es, c, i);
      if !RestoresAt(es, c, |es| - 1) {
        var j: nat :| i < j && RestoresAt(before, c, j);
        InPrefix(s, es, c, j);
      }
    }
  }

  /** One step longer, a run is informed unless the step breaks, or the run was not and the step restores nothing. */
  lemma InformedStep<V>(s: State<V>, es: seq<Step<V>>, c: nat)
    requires es != []
    ensures Informed(s, es, c) <==>
              !BreaksAt(s, es, c, |es| - 1) && (Informed(s, es[..|es| - 1], c) || RestoresAt(es, c, |es| - 1))
  {
    if Informed(s, es, c) {
      if !RestoresAt(es, c, |es| - 1) {
        InformedBefore(s, es, c);
      }
    }
    if !BreaksAt(s, es, c, |es| - 1) && (Informed(s, es[..|es| - 1], c) || RestoresAt(es, c, |es| - 1)) {
      InformedLater(s, es, c);
    }
  }

  /**
    No lost update, exactly.  After every run, a registered watcher that last
    read an old version has a token, or is about to read, or is owed a
    notification, if and only if every emission whose breaking off lost it an
    update was followed by a step that made up for it.
  */
  lemma {:induction false} NoLostUpdate<V>(v: V, es: seq<Step<V>>, c: nat)
    requires IsRun(Initial(v), es)
    ensures NotLost(After(Initial(v), es), c) <==> Informed(Initial(v), es, c)
    decreases |es|
  {
    if es != [] {
      var n := |es| - 1;
      LastStep(Initial(v), es);
      NoLostUpdate(v, es[..n], c);
      ReachableInv(Initial(v), es[..n]);
      NotLostAfter(After(Initial(v), es[..n]), es[n], c);
      InformedStep(Initial(v), es, c);
    }
  }

  // ---------- rest ----------

  /** No internal step loses or makes up for anything. */
  lemma {:induction false} InternalRunKeeps<V>(s: State<V>, es: seq<Step<V>>, c: nat)
    requires Inv(s) && IsInternalRun(s, es) && IsRun(s, es)
    ensures NotLost(After(s, es), c) <==> NotLost(s, c)
    decreases |es|
  {
    if es != [] {
      InvStep(s, es[0]);
      NotLostAfter(s, es[0], c);
      InternalRunKeeps(Do(s, es[0]), es[1..], c);
    }
  }

  /** At rest, nothing is lost to a registered watcher exactly when what it applied last is the published version. */
  lemma RestIsCurrent<V>(s: State<V>, c: nat)
    requires Inv(s) && forall e :: !Internal(s, e)
    requires c < |s.watchers| && s.watchers[c].registered && Watching(s.watchers[c])
    ensures var w := s.watchers[c];
            && (NotLost(s, c) <==> w.appliedVersion == s.Version())
            && (w.immediate ==> w.applied.Some?)
            && (NotLost(s, c) && w.applied.Some? ==> w.applied == Some(s.Value()))
  {
    RestIsSettled(s);
    assert Settled(s.watchers[c]) && Honest(s, s.watchers[c]);
  }

  /**
    Every watcher catches up, exactly.  From every reachable state let the
    internal steps go on until none is left: then a registered watcher has
    applied the published version if and only if nothing was lost to it before.
  */
  lemma WatcherCatchesUp<V>(v: V, es: seq<Step<V>>, rest: seq<Step<V>>, c: nat)
    requires IsRun(Initial(v), es)
    requires var s := After(Initial(v), es); IsInternalRun(s, rest) && IsRun(s, rest)
    requires var t := After(After(Initial(v), es), rest);
             && (forall e :: !Internal(t, e))
             && c < |t.watchers| && t.watchers[c].registered && Watching(t.watchers[c])
    ensures var t := After(After(Initial(v), es), rest);
            var w := t.watchers[c];
            && (w.appliedVersion == t.Version() <==> NotLost(After(Initial(v), es), c))
            && (w.appliedVersion == t.Version() <==> Informed(Initial(v), es, c))
            && (Informed(Initial(v), es, c) && w.immediate ==> w.applied == Some(t.Value()))
  {
    var s := After(Initial(v), es);
    ReachableInv(Initial(v), es);
    ReachableInv(s, rest);
    NoLostUpdate(v, es, c);
    InternalRunKeeps(s, rest, c);
    RestIsCurrent(After(s, rest), c);
  }

  // ---------- an emission that its context breaks off ----------

  /** A watcher subscribes, is called at once, and applies the value. */
  function CalledAtOnce(rest: seq<Step<int>>): seq<Step<int>> {
    [Subscribe] + ([StartWatch(0, true)] + ([Read(0)] + ([Apply(0)] + rest)))
  }

  /** A run in which the context of an emission ends before the watcher is notified. */
  const BROKEN_OFF: seq<Step<int>> := CalledAtOnce([Publish(1)] + ([BeginEmit(0)] + ([StopEmit(0)] + [])))

  /** A watcher that was called at once and waits. */
  const CALLED: Watcher<int> := NewWatcher<int>(0).(immediate := true, phase := Waiting, applied := Some(0))

  lemma CalledOnce(rest: seq<Step<int>>)
    requires IsRun(State(0, [], [], [CALLED]), rest)
    ensures IsRun(Initial(0), CalledAtOnce(rest))
    ensures After(Initial(0), CalledAtOnce(rest)) == After(State(0, [], [], [CALLED]), rest)
  {
    var s1 := Do(Initial(0), Subscribe);
    var s2 := Do(s1, StartWatch(0, true));
    var s3 := Do(s2, Read(0));
    assert Do(s3, Apply(0)) == State(0, [], [], [CALLED]);
    OneStep(s3, Apply(0), rest);
    OneStep(s2, Read(0), [Apply(0)] + rest);
    OneStep(s1, StartWatch(0, true), [Read(0)] + ([Apply(0)] + rest));
    OneStep(Initial(0), Subscribe, [StartWatch(0, true)] + ([Read(0)] + ([Apply(0)] + rest)));
  }

  /** A broken-off emission can lose the update for good: the watcher is idle and out of date. */
  lemma BrokenOffEmissionLoses()
    ensures IsRun(Initial(0), BROKEN_OFF)
    ensures var s := After(Initial(0), BROKEN_OFF);
            && WritersDone(s) && |s.watchers| == 1 && s.watchers[0].registered && Idle(s.watchers[0])
            && s.watchers[0].applied == Some(0) && s.Value() == 1 && !Informed(Initial(0), BROKEN_OFF, 0)
  {
    var s4 := State(0, [], [], [CALLED]);
    var s5 := Do(s4, Publish(1));
    var s6 := Do(s5, BeginEmit(0));
    OneStep(s6, StopEmit(0), []);
    OneStep(s5, BeginEmit(0), [StopEmit(0)] + []);
    OneStep(s4, Publish(1), [BeginEmit(0)] + ([StopEmit(0)] + []));
    CalledOnce([Publish(1)] + ([BeginEmit(0)] + ([StopEmit(0)] + [])));
    NoLostUpdate(0, BROKEN_OFF, 0);
  }
}
