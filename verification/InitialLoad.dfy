/**
  The event that tells the world that every market tier has been loaded once
  (checkAndTriggerInitialLoadCompleted in coingecko_markets/periodic_updater.go).
  Completions of tiers arrive one at a time, in any order and any number of times.
*/
module InitialLoad {
  import opened Sequences

  datatype Load = Load(completed: map<string, bool>, allCompleted: bool)

  function Names(tiers: seq<string>): (s: set<string>)
    ensures forall n :: n in s <==> n in tiers
  {
    set n | n in tiers
  }

  /** The bookkeeping is about configured tiers and never records a false completion. */
  ghost predicate Sound(l: Load, tiers: seq<string>) {
    l.completed.Keys <= Names(tiers) && forall n :: n in l.completed ==> l.completed[n]
  }

  class InitialLoadTracker {
    /** The tier names of the configuration, in order. */
    const tiers: seq<string>
    var load: Load

    constructor (tiers: seq<string>)
      ensures this.tiers == tiers && load == Load(map[], false) && Sound(load, tiers)
    {
      this.tiers := tiers;
      load := Load(map[], false);
    }

    method CheckAndTriggerInitialLoadCompleted(tierName: string) returns (launched: bool)
      requires Sound(load, tiers) && tierName in tiers
      modifies this
      ensures Sound(load, tiers)
      ensures (load, launched) == Complete(old(load), tiers, tierName)
    {
      launched := false;
      if tierName !in load.completed || !load.completed[tierName] {
        load := load.(completed := load.completed[tierName := true]);
      } else {
        assert load.completed[tierName := true] == load.completed;
      }
      if !load.allCompleted && |load.completed| == |tiers| {
        var allCompleted := true;
        var i := 0;
        while i < |tiers| && allCompleted
          invariant 0 <= i <= |tiers|
          invariant allCompleted <==> forall k :: 0 <= k < i ==> tiers[k] in load.completed
        {
          if tiers[i] !in load.completed || !load.completed[tiers[i]] {
            allCompleted := false;
          }
          i := i + 1;
        }
        if allCompleted {
          load := load.(allCompleted := true);
          launched := true;
        }
      }
    }
  }

  /** The effect of one completion: the new bookkeeping, and whether the callback is launched. */
  ghost function Complete(l: Load, tiers: seq<string>, name: string): (Load, bool) {
    var completed := l.completed[name := true];
    if !l.allCompleted && |completed| == |tiers| && (forall k :: 0 <= k < |tiers| ==> tiers[k] in completed)
    then (Load(completed, true), true)
    else (Load(completed, l.allCompleted), false)
  }

  ghost function After(l: Load, tiers: seq<string>, names: seq<string>): Load {
    if names == [] then l
    else Complete(After(l, tiers, names[..|names| - 1]), tiers, names[|names| - 1]).0
  }

  /** Whether completion number i of the run launches the callback. */
  ghost predicate LaunchesAt(tiers: seq<string>, names: seq<string>, i: nat)
    requires i < |names|
  {
    Complete(After(Load(map[], false), tiers, names[..i]), tiers, names[i]).1
  }

  /** The first i completions have loaded every configured tier. */
  ghost predicate AllLoaded(tiers: seq<string>, names: seq<string>, i: nat)
    requires i <= |names|
  {
    forall n :: n in tiers ==> n in names[..i]
  }

  // ---------- counting ----------

  lemma {:induction false} NamesCount(tiers: seq<string>)
    ensures |Names(tiers)| <= |tiers|
    ensures |Names(tiers)| == |tiers| <==> Distinct(tiers)
  {
    if tiers == [] {
      assert Names(tiers) == {};
    } else {
      var n := |tiers| - 1;
      var before := tiers[..n];
      NamesCount(before);
      assert tiers == before + [tiers[n]];
      assert Names(tiers) == Names(before) + {tiers[n]};
      if tiers[n] in before {
        var k :| 0 <= k < n && before[k] == tiers[n];
        assert Names(tiers) == Names(before);
        assert tiers[k] == tiers[n];
      } else {
        if !Distinct(before) {
          var i, j :| 0 <= i < j < n && before[i] == before[j];
          assert tiers[i] == tiers[j];
        }
      }
    }
  }

  lemma SubsetCount<T>(a: set<T>, b: set<T>)
    requires a <= b
    ensures |a| <= |b|
    ensures |a| == |b| ==> a == b
  {
    assert b == a + (b - a);
    if |a| == |b| {
      assert |b - a| == 0;
    }
  }

  /** Exactly the named tiers are recorded, and the flag is set exactly when they are all and distinct. */
  ghost predicate Records(l: Load, tiers: seq<string>, names: seq<string>) {
    && Sound(l, tiers)
    && (forall n :: n in l.completed <==> n in names)
    && (l.allCompleted <==> Distinct(tiers) && forall n :: n in tiers ==> n in names)
  }

  /** What the bookkeeping says after any run of completions of configured tiers. */
  lemma {:induction false} AfterRun(tiers: seq<string>, names: seq<string>)
    requires forall n :: n in names ==> n in tiers
    requires tiers != []
    ensures Records(After(Load(map[], false), tiers, names), tiers, names)
  {
    if names != [] {
      var i := |names| - 1;
      AfterRun(tiers, names[..i]);
      assert names == names[..i] + [names[i]];
      RecordsStep(After(Load(map[], false), tiers, names[..i]), tiers, names[..i], names[i]);
    } else {
      assert tiers[0] in tiers;
    }
  }

  lemma RecordsStep(l: Load, tiers: seq<string>, names: seq<string>, name: string)
    requires Records(l, tiers, names) && name in tiers
    requires forall n :: n in names ==> n in tiers
    ensures Records(Complete(l, tiers, name).0, tiers, names + [name])
  {
    CountingStep(tiers, names + [name]);
    var completed := l.completed[name := true];
    assert forall n :: n in completed <==> n in names + [name];
    assert |completed| == |Names(names + [name])|;
  }

  /** The length comparison succeeds exactly for distinct names that have all completed. */
  lemma CountingStep(tiers: seq<string>, names: seq<string>)
    requires forall n :: n in names ==> n in tiers
    ensures |Names(names)| == |tiers| <==> Distinct(tiers) && Names(names) == Names(tiers)
    ensures forall m: map<string, bool> :: (forall n :: n in m <==> n in names) ==> |m| == |Names(names)|
  {
    NamesCount(tiers);
    SubsetCount(Names(names), Names(tiers));
    forall m: map<string, bool> | forall n :: n in m <==> n in names
      ensures |m| == |Names(names)|
    {
      assert m.Keys == Names(names);
    }
  }

  lemma OneCompletion(l: Load, tiers: seq<string>, names: seq<string>, name: string)
    requires Records(l, tiers, names) && name in tiers
    requires forall n :: n in names ==> n in tiers
    ensures Complete(l, tiers, name).1 <==>
              && Distinct(tiers)
              && (forall n :: n in tiers ==> n in names + [name])
              && !(forall n :: n in tiers ==> n in names)
  {
    CountingStep(tiers, names + [name]);
    var completed := l.completed[name := true];
    assert forall n :: n in completed <==> n in names + [name];
    assert |completed| == |Names(names + [name])|;
  }

  // ---------- the theorem ----------

  /**
    Over every run of completions the callback is launched exactly in the step
    where the last missing tier completes for the first time, provided that tier
    names are distinct; with two tiers of the same name it is never launched.
  */
  lemma LaunchedExactlyThen(tiers: seq<string>, names: seq<string>, i: nat)
    requires tiers != [] && i < |names|
    requires forall n :: n in names ==> n in tiers
    ensures LaunchesAt(tiers, names, i)
            <==> Distinct(tiers) && AllLoaded(tiers, names, i + 1) && !AllLoaded(tiers, names, i)
  {
    var before := names[..i];
    PrefixGrows(names, i);
    AfterRun(tiers, before);
    OneCompletion(After(Load(map[], false), tiers, before), tiers, before, names[i]);
  }

  /** The callback is launched at most once. */
  lemma LaunchedAtMostOnce(tiers: seq<string>, names: seq<string>, i: nat, j: nat)
    requires tiers != [] && i < j < |names|
    requires forall n :: n in names ==> n in tiers
    ensures !(LaunchesAt(tiers, names, i) && LaunchesAt(tiers, names, j))
  {
    LaunchedExactlyThen(tiers, names, i);
    LaunchedExactlyThen(tiers, names, j);
    if AllLoaded(tiers, names, i + 1) {
      assert names[..i + 1] <= names[..j];
      forall n | n in tiers
        ensures n in names[..j]
      {
        assert n in names[..i + 1];
        var k :| 0 <= k < i + 1 && names[..i + 1][k] == n;
        assert names[..j][k] == n;
      }
    }
  }

  /** With distinct names, a run that loads every tier does launch the callback. */
  lemma {:induction false} LaunchedInTheEnd(tiers: seq<string>, names: seq<string>, n: nat)
    requires tiers != [] && Distinct(tiers) && n <= |names|
    requires forall x :: x in names ==> x in tiers
    requires AllLoaded(tiers, names, n)
    ensures exists i :: 0 <= i < n && LaunchesAt(tiers, names, i)
  {
    assert tiers[0] in tiers;
    assert names[..0] == [];
    if AllLoaded(tiers, names, n - 1) {
      LaunchedInTheEnd(tiers, names, n - 1);
    } else {
      LaunchedExactlyThen(tiers, names, n - 1);
    }
  }
}
