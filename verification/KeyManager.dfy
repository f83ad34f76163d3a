/**
  API keys, their backoff, and the loop that tries one key after the other
  (coingecko_common/api_key_manager.go, coingecko_common/utils.go,
  prependFreeKey in coingecko_market_chart/api.go).

  What a request does with a key is an input: attempt number i of a call takes
  `duration` and ends in `outcome`.  The clock never runs backwards.
*/
module KeyManager {
  import opened Wrappers
  import opened Sequences

  const BACKOFF: int := 300_000_000_000   // five minutes

  datatype KeyType = NoKey | ProKey | DemoKey

  datatype APIKey = APIKey(key: string, keyType: KeyType)

  const FREE := APIKey("", NoKey)

  datatype Outcome = Success(result: string) | Failure(error: string) | Silent

  datatype Attempt = Attempt(duration: nat, outcome: Outcome)

  /** A call begins `delay` after the previous one ended, and may try the keyless entry first. */
  datatype Call = Call(delay: nat, freeFirst: bool, attempts: nat -> Attempt)

  type Failures = map<string, int>

  /** A failed attempt: a key whose failure was reported, and when. */
  datatype Failed = Failed(key: string, at: int)

  // ---------- the offered keys ----------

  predicate InBackoff(lastFailed: Failures, key: string, now: int) {
    key != "" && key in lastFailed && now - lastFailed[key] < BACKOFF
  }

  /** The keys of one kind that are not in backoff, in configuration order. */
  function Rested(keys: seq<string>, keyType: KeyType, lastFailed: Failures, now: int): seq<APIKey> {
    if keys == [] then []
    else
      var n := |keys| - 1;
      Rested(keys[..n], keyType, lastFailed, now)
      + if InBackoff(lastFailed, keys[n], now) then [] else [APIKey(keys[n], keyType)]
  }

  /** A single Pro key is offered even in backoff. */
  function ProPart(pro: seq<string>, lastFailed: Failures, now: int): seq<APIKey> {
    if |pro| == 1 then [APIKey(pro[0], ProKey)] else Rested(pro, ProKey, lastFailed, now)
  }

  function Offered(pro: seq<string>, demo: seq<string>, lastFailed: Failures, now: int): (keys: seq<APIKey>)
    ensures |keys| > 0 && keys[|keys| - 1] == FREE
  {
    ProPart(pro, lastFailed, now)
    + Rested(demo, DemoKey, lastFailed, now)
    + [FREE]
  }

  // ---------- one call ----------

  datatype Result = Found(result: string) | AllFailed(lastError: Option<string>)

  /** The state between two attempts: the clock, the recorded failures, and the failures so far. */
  datatype Progress = Progress(now: int, lastFailed: Failures, failed: seq<Failed>, lastError: Option<string>)

  /** The effect of an attempt that did not succeed. */
  function AfterAttempt(p: Progress, key: string, a: Attempt): Progress {
    var now := p.now + a.duration;
    if a.outcome.Failure? then
      Progress(now,
               if key != "" then p.lastFailed[key := now] else p.lastFailed,
               p.failed + [Failed(key, now)],
               Some(a.outcome.error))
    else p.(now := now)
  }

  class APIKeyManager {
    const pro: seq<string>
    const demo: seq<string>
    var lastFailed: Failures

    constructor (pro: seq<string>, demo: seq<string>)
      ensures this.pro == pro && this.demo == demo && lastFailed == map[]
    {
      this.pro, this.demo := pro, demo;
      lastFailed := map[];
    }

    method IsKeyInBackoff(key: string, now: int) returns (inBackoff: bool)
      ensures inBackoff == InBackoff(lastFailed, key, now)
      ensures inBackoff <==> key != "" && key in lastFailed && now < lastFailed[key] + BACKOFF
    {
      if key == "" {
        return false;
      }
      if key in lastFailed {
        return now - lastFailed[key] < BACKOFF;
      }
      return false;
    }

    method RestedKeys(keys: seq<string>, keyType: KeyType, now: int) returns (available: seq<APIKey>)
      ensures available == Rested(keys, keyType, lastFailed, now)
    {
      available := [];
      for i := 0 to |keys|
        invariant available == Rested(keys[..i], keyType, lastFailed, now)
      {
        assert keys[..i + 1][..i] == keys[..i];
        var inBackoff := IsKeyInBackoff(keys[i], now);
        if !inBackoff {
          available := available + [APIKey(keys[i], keyType)];
        }
      }
      assert keys[..|keys|] == keys;
    }

    method GetAvailableKeys(now: int) returns (available: seq<APIKey>)
      ensures available == Offered(pro, demo, lastFailed, now)
      ensures IsOffer(available, pro, demo, false, lastFailed, now)
      ensures forall k :: APIKey(k, ProKey) in available <==>
                            pro == [k] || (k in pro && (k == "" || k !in lastFailed || now >= lastFailed[k] + BACKOFF))
      ensures forall k :: APIKey(k, DemoKey) in available <==>
                            k in demo && (k == "" || k !in lastFailed || now >= lastFailed[k] + BACKOFF)
    {
      available := [];
      if |pro| == 1 {
        available := available + [APIKey(pro[0], ProKey)];
      } else if |pro| > 1 {
        available := RestedKeys(pro, ProKey, now);
      }
      var demoKeys := RestedKeys(demo, DemoKey, now);
      available := available + demoKeys + [FREE];
      ListedParts(available, pro, demo, lastFailed, now, false);
      OfferedKinds(available, pro, demo, lastFailed, now);
    }

    method MarkKeyAsFailed(key: string, now: int)
      modifies this
      ensures lastFailed == if key == "" then old(lastFailed) else old(lastFailed)[key := now]
    {
      if key == "" {
        return;
      }
      lastFailed := lastFailed[key := now];
    }

    /**
      TryWithKeys with the callback that marks keys as failed.  `tried` lists the
      keys that were attempted and `failed` the reported failures.
    */
    method TryWithKeys(keys: seq<APIKey>, start: int, attempts: nat -> Attempt)
      returns (r: Result, tried: seq<APIKey>, failed: seq<Failed>, end: int)
      modifies this
      ensures tried <= keys && end >= start
      ensures forall i :: 0 <= i < |tried| - 1 ==> !attempts(i).outcome.Success?
      ensures r.Found? ==> tried != [] && attempts(|tried| - 1).outcome == Success(r.result)
      ensures r.AllFailed? ==> tried == keys && (tried != [] ==> !attempts(|tried| - 1).outcome.Success?)
      ensures var p := Through(keys, start, old(lastFailed), attempts);
              && failed == p.failed && lastFailed == p.lastFailed && end == p.now
              && (r.AllFailed? ==> r.lastError == p.lastError)
    {
      var lastError: Option<string> := None;
      end, tried, failed := start, [], [];
      ghost var p := Progress(start, lastFailed, [], None);
      for i := 0 to |keys|
        invariant tried == keys[..i] && end >= start
        invariant forall k :: 0 <= k < i ==> !attempts(k).outcome.Success?
        invariant p == Progress(end, lastFailed, failed, lastError)
        invariant TryFrom(p, keys[i..], i, attempts) == Through(keys, start, old(lastFailed), attempts)
      {
        var apiKey := keys[i];
        assert keys[i..][1..] == keys[i + 1..];
        var a := attempts(i);
        end := end + a.duration;
        tried := tried + [apiKey];
        if a.outcome.Success? {
          return Found(a.outcome.result), tried, failed, end;
        }
        p := AfterAttempt(p, apiKey.key, a);
        if a.outcome.Failure? {
          if apiKey.key != "" {
            MarkKeyAsFailed(apiKey.key, end);
          }
          failed := failed + [Failed(apiKey.key, end)];
          lastError := Some(a.outcome.error);
        }
      }
      return AllFailed(lastError), tried, failed, end;
    }

    /** The keys of one request, with the keyless entry in front when the configuration asks for that. */
    method ListKeys(now: int, freeFirst: bool) returns (keys: seq<APIKey>)
      ensures keys == Listed(pro, demo, lastFailed, now, freeFirst)
      ensures IsOffer(keys, pro, demo, freeFirst, lastFailed, now)
    {
      keys := GetAvailableKeys(now);
      if freeFirst {
        var slice := new APIKey[|keys|](k requires 0 <= k < |keys| => keys[k]);
        assert slice[..] == keys;
        keys := PrependFreeKey(slice);
      }
      ListedParts(keys, pro, demo, lastFailed, now, freeFirst);
    }

    /** Calls that do not overlap, one after the other. */
    method Serve(calls: seq<Call>, start: int) returns (failed: seq<Failed>, end: int)
      modifies this
      ensures Progress(end, lastFailed, failed, None)
              == AfterCalls(pro, demo, Progress(start, old(lastFailed), [], None), calls)
    {
      failed, end := [], start;
      ghost var first := Progress(start, lastFailed, [], None);
      ghost var p := first;
      for i := 0 to |calls|
        invariant p.now == end && p.lastFailed == lastFailed && p.failed == failed && p.lastError == None
        invariant AfterCalls(pro, demo, first, calls) == AfterCalls(pro, demo, p, calls[i..])
      {
        ServeStep(pro, demo, p, calls, i);
        var failedNow, ended := ServeOne(calls[i], end + calls[i].delay);
        failed, end := failed + failedNow, ended;
        p := AfterCall(pro, demo, p, calls[i]);
      }
    }

    /** One call that begins now. */
    method ServeOne(c: Call, now: int) returns (failed: seq<Failed>, end: int)
      modifies this
      ensures var q := Through(Listed(pro, demo, old(lastFailed), now, c.freeFirst), now, old(lastFailed), c.attempts);
              failed == q.failed && lastFailed == q.lastFailed && end == q.now
    {
      var keys := ListKeys(now, c.freeFirst);
      var r, tried;
      r, tried, failed, end := TryWithKeys(keys, now, c.attempts);
    }
  }

  /** The loop over the keys, from attempt number i on. */
  function TryFrom(p: Progress, keys: seq<APIKey>, i: nat, attempts: nat -> Attempt): Progress
    decreases |keys|
  {
    if keys == [] then p
    else if attempts(i).outcome.Success? then p.(now := p.now + attempts(i).duration)
    else TryFrom(AfterAttempt(p, keys[0].key, attempts(i)), keys[1..], i + 1, attempts)
  }

  function Through(keys: seq<APIKey>, start: int, lastFailed: Failures, attempts: nat -> Attempt): Progress {
    TryFrom(Progress(start, lastFailed, [], None), keys, 0, attempts)
  }

  /** The keys that a call tries, in order. */
  function Listed(pro: seq<string>, demo: seq<string>, lastFailed: Failures, now: int, freeFirst: bool): seq<APIKey> {
    if freeFirst then FreeFirst(Offered(pro, demo, lastFailed, now)) else Offered(pro, demo, lastFailed, now)
  }

  function AfterCall(pro: seq<string>, demo: seq<string>, p: Progress, c: Call): Progress {
    var now := p.now + c.delay;
    var q := Through(Listed(pro, demo, p.lastFailed, now, c.freeFirst), now, p.lastFailed, c.attempts);
    Progress(q.now, q.lastFailed, p.failed + q.failed, None)
  }

  function AfterCalls(pro: seq<string>, demo: seq<string>, p: Progress, calls: seq<Call>): Progress
    decreases |calls|
  {
    if calls == [] then p else AfterCalls(pro, demo, AfterCall(pro, demo, p, calls[0]), calls[1..])
  }

  lemma ServeStep(pro: seq<string>, demo: seq<string>, p: Progress, calls: seq<Call>, i: nat)
    requires i < |calls|
    ensures AfterCalls(pro, demo, p, calls[i..])
            == AfterCalls(pro, demo, AfterCall(pro, demo, p, calls[i]), calls[i + 1..])
  {
    assert calls[i..][1..] == calls[i + 1..];
  }

  // ---------- what one call does ----------

  /** How long the first n attempts take. */
  function Elapsed(attempts: nat -> Attempt, n: nat): nat {
    if n == 0 then 0 else Elapsed(attempts, n - 1) + attempts(n - 1).duration
  }

  /** The first n attempts, as the failures they would be. */
  function AsFailures(keys: seq<APIKey>, n: nat, start: int, attempts: nat -> Attempt): (r: seq<Failed>)
    requires n <= |keys|
    ensures |r| == n && forall i :: 0 <= i < n ==> r[i] == Failed(keys[i].key, start + Elapsed(attempts, i + 1))
  {
    seq(n, i requires 0 <= i < n => Failed(keys[i].key, start + Elapsed(attempts, i + 1)))
  }

  ghost function FailingBelow(attempts: nat -> Attempt, n: nat): set<nat> {
    set i: nat | i < n && attempts(i).outcome.Failure?
  }

  /** The key's last failure, or -1. */
  function LastFailure(failed: seq<Failed>, key: string): (i: int)
    ensures -1 <= i < |failed|
    ensures i >= 0 ==> failed[i].key == key
    ensures forall k :: i < k < |failed| ==> failed[k].key != key
  {
    if failed == [] then -1
    else if failed[|failed| - 1].key == key then |failed| - 1
    else LastFailure(failed[..|failed| - 1], key)
  }

  /** The key is marked with its last failure; the empty key and a key without one keep their record. */
  predicate Marked(before: Failures, after: Failures, failed: seq<Failed>, key: string) {
    if key == "" || LastFailure(failed, key) < 0
    then (key in after <==> key in before) && (key in before ==> after[key] == before[key])
    else key in after && after[key] == failed[LastFailure(failed, key)].at
  }

  /** The error of the last failing one among the first n attempts, if any fails. */
  ghost predicate LastErrorIs(attempts: nat -> Attempt, n: nat, e: Option<string>) {
    match e
    case None => forall i: nat :: i < n ==> !attempts(i).outcome.Failure?
    case Some(error) => exists i: nat :: i < n && attempts(i).outcome == Failure(error)
                                         && forall j: nat :: i < j < n ==> !attempts(j).outcome.Failure?
  }

  /**
    The state after the first n attempts: the clock, and exactly the failing ones
    reported, in order, with the time they ended; each key marked with its last
    failure; and the last error.
  */
  ghost predicate Attempted(keys: seq<APIKey>, n: nat, start: int, before: Failures, attempts: nat -> Attempt,
                            p: Progress)
  {
    && n <= |keys|
    && p.now == start + Elapsed(attempts, n)
    && Selects(AsFailures(keys, n, start, attempts), p.failed, FailingBelow(attempts, n))
    && (forall key :: Marked(before, p.lastFailed, p.failed, key))
    && LastErrorIs(attempts, n, p.lastError)
  }

  lemma NotAttempted(keys: seq<APIKey>, start: int, before: Failures, attempts: nat -> Attempt)
    ensures Attempted(keys, 0, start, before, attempts, Progress(start, before, [], None))
  {
    SelectsNone<Failed>();
    assert FailingBelow(attempts, 0) == {};
    assert AsFailures(keys, 0, start, attempts) == [];
  }

  lemma LastFailureStep(failed: seq<Failed>, f: Failed, key: string)
    ensures LastFailure(failed + [f], key) == if f.key == key then |failed| else LastFailure(failed, key)
  {
    assert (failed + [f])[..|failed|] == failed;
  }

  lemma FailuresStep(keys: seq<APIKey>, n: nat, start: int, attempts: nat -> Attempt, failed: seq<Failed>)
    requires n < |keys| && Selects(AsFailures(keys, n, start, attempts), failed, FailingBelow(attempts, n))
    ensures var next := Failed(keys[n].key, start + Elapsed(attempts, n + 1));
            Selects(AsFailures(keys, n + 1, start, attempts),
                    failed + if attempts(n).outcome.Failure? then [next] else [], FailingBelow(attempts, n + 1))
  {
    var next := Failed(keys[n].key, start + Elapsed(attempts, n + 1));
    var fails := attempts(n).outcome.Failure?;
    SelectsOneMore(AsFailures(keys, n, start, attempts), next, failed, FailingBelow(attempts, n), fails);
    AsFailuresStep(keys, n, start, attempts);
    FailingStep(attempts, n);
  }

  lemma AsFailuresStep(keys: seq<APIKey>, n: nat, start: int, attempts: nat -> Attempt)
    requires n < |keys|
    ensures AsFailures(keys, n + 1, start, attempts)
         == AsFailures(keys, n, start, attempts) + [Failed(keys[n].key, start + Elapsed(attempts, n + 1))]
  {
  }

  lemma FailingStep(attempts: nat -> Attempt, n: nat)
    ensures FailingBelow(attempts, n + 1)
         == FailingBelow(attempts, n) + if attempts(n).outcome.Failure? then {n} else {}
  {
  }

  lemma MarkedStep(keys: seq<APIKey>, n: nat, before: Failures, p: Progress, a: Attempt, key: string)
    requires n < |keys| && Marked(before, p.lastFailed, p.failed, key)
    ensures var q := AfterAttempt(p, keys[n].key, a); Marked(before, q.lastFailed, q.failed, key)
  {
    LastFailureStep(p.failed, Failed(keys[n].key, p.now + a.duration), key);
  }

  lemma AttemptedStep(keys: seq<APIKey>, n: nat, start: int, before: Failures, attempts: nat -> Attempt, p: Progress)
    requires Attempted(keys, n, start, before, attempts, p) && n < |keys|
    ensures Attempted(keys, n + 1, start, before, attempts, AfterAttempt(p, keys[n].key, attempts(n)))
  {
    var q := AfterAttempt(p, keys[n].key, attempts(n));
    FailuresStep(keys, n, start, attempts, p.failed);
    assert p.failed + [] == p.failed;
    forall key: string
      ensures Marked(before, q.lastFailed, q.failed, key)
    {
      MarkedStep(keys, n, before, p, attempts(n), key);
    }
    LastErrorStep(attempts, n, p.lastError);
  }

  lemma LastErrorStep(attempts: nat -> Attempt, n: nat, e: Option<string>)
    requires LastErrorIs(attempts, n, e)
    ensures LastErrorIs(attempts, n + 1,
                        if attempts(n).outcome.Failure? then Some(attempts(n).outcome.error) else e)
  {
    if attempts(n).outcome.Failure? {
      var error := attempts(n).outcome.error;
      assert n < n + 1 && attempts(n).outcome == Failure(error)
             && forall j: nat :: n < j < n + 1 ==> !attempts(j).outcome.Failure?;
    } else if e.Some? {
      var i: nat :| i < n && attempts(i).outcome == Failure(e.value)
                    && forall j: nat :: i < j < n ==> !attempts(j).outcome.Failure?;
      assert i < n + 1 && forall j: nat :: i < j < n + 1 ==> !attempts(j).outcome.Failure?;
    }
  }

  /** How many attempts a call makes: up to the first success. */
  function Tries(total: nat, i: nat, attempts: nat -> Attempt): (n: nat)
    requires i <= total
    ensures i <= n <= total
    ensures forall k: nat :: i <= k && k + 1 < n ==> !attempts(k).outcome.Success?
    ensures n < total ==> n > i && attempts(n - 1).outcome.Success?
    decreases total - i
  {
    if i == total then total
    else if attempts(i).outcome.Success? then i + 1
    else Tries(total, i + 1, attempts)
  }

  lemma {:induction false} TriesAre(keys: seq<APIKey>, i: nat, start: int, before: Failures, attempts: nat -> Attempt,
                                    p: Progress)
    requires i <= |keys| && Attempted(keys, i, start, before, attempts, p)
    ensures Attempted(keys, Tries(|keys|, i, attempts), start, before, attempts, TryFrom(p, keys[i..], i, attempts))
    decreases |keys| - i
  {
    if i < |keys| {
      AttemptedStep(keys, i, start, before, attempts, p);
      if attempts(i).outcome.Success? {
        assert TryFrom(p, keys[i..], i, attempts) == AfterAttempt(p, keys[i].key, attempts(i));
      } else {
        assert keys[i..][1..] == keys[i + 1..];
        TriesAre(keys, i + 1, start, before, attempts, AfterAttempt(p, keys[i].key, attempts(i)));
      }
    }
  }

  /** What a call leaves behind, attempt by attempt. */
  lemma CallIsAttempted(keys: seq<APIKey>, start: int, before: Failures, attempts: nat -> Attempt)
    ensures Attempted(keys, Tries(|keys|, 0, attempts), start, before, attempts, Through(keys, start, before, attempts))
  {
    NotAttempted(keys, start, before, attempts);
    assert keys[0..] == keys;
    TriesAre(keys, 0, start, before, attempts, Progress(start, before, [], None));
  }

  /**
    One call, in full: it begins its delay after the previous one ended, tries
    the keys on offer then, in their order, and does what Attempted says.
  */
  lemma CallIs(pro: seq<string>, demo: seq<string>, p: Progress, c: Call)
    ensures exists keys, e :: IsOffer(keys, pro, demo, c.freeFirst, p.lastFailed, p.now + c.delay)
                              && CallDone(p, AfterCall(pro, demo, p, c), c, keys, e)
  {
    var now := p.now + c.delay;
    var keys := Listed(pro, demo, p.lastFailed, now, c.freeFirst);
    var r := Through(keys, now, p.lastFailed, c.attempts);
    ListedParts(keys, pro, demo, p.lastFailed, now, c.freeFirst);
    CallIsAttempted(keys, now, p.lastFailed, c.attempts);
    OneCallDone(p, c, keys, r);
    assert CallDone(p, AfterCall(pro, demo, p, c), c, keys, r.lastError);
  }

  lemma OneCallDone(p: Progress, c: Call, keys: seq<APIKey>, r: Progress)
    requires Attempted(keys, Tries(|keys|, 0, c.attempts), p.now + c.delay, p.lastFailed, c.attempts, r)
    ensures CallDone(p, Progress(r.now, r.lastFailed, p.failed + r.failed, None), c, keys, r.lastError)
  {
    assert (p.failed + r.failed)[|p.failed|..] == r.failed;
  }

  ghost predicate CallDone(p: Progress, q: Progress, c: Call, keys: seq<APIKey>, e: Option<string>) {
    && p.failed <= q.failed
    && Attempted(keys, Tries(|keys|, 0, c.attempts), p.now + c.delay, p.lastFailed, c.attempts,
                 Progress(q.now, q.lastFailed, q.failed[|p.failed|..], e))
  }

  // ---------- what is offered ----------

  /** The keys as entries of one kind. */
  function Typed(keys: seq<string>, keyType: KeyType): (r: seq<APIKey>)
    ensures |r| == |keys| && forall i :: 0 <= i < |keys| ==> r[i] == APIKey(keys[i], keyType)
  {
    seq(|keys|, i requires 0 <= i < |keys| => APIKey(keys[i], keyType))
  }

  ghost function RestedAt(keys: seq<string>, all: bool, lastFailed: Failures, now: int): set<nat> {
    set i: nat | i < |keys|
                 && (all || keys[i] == "" || keys[i] !in lastFailed || now >= lastFailed[keys[i]] + BACKOFF)
  }

  /** The entries are all of the keys, or all that are not in backoff, with their kind, order and multiplicity. */
  ghost predicate ListsRested(entries: seq<APIKey>, keys: seq<string>, keyType: KeyType, all: bool,
                              lastFailed: Failures, now: int)
  {
    Selects(Typed(keys, keyType), entries, RestedAt(keys, all, lastFailed, now))
  }

  predicate Joined(keys: seq<APIKey>, a: seq<APIKey>, b: seq<APIKey>, freeFirst: bool) {
    keys == if freeFirst then [APIKey("", NoKey)] + a + b else a + b + [APIKey("", NoKey)]
  }

  /** The Pro keys before the Demo keys, and the keyless entry behind or in front of both. */
  ghost predicate IsOffer(keys: seq<APIKey>, pro: seq<string>, demo: seq<string>, freeFirst: bool,
                          lastFailed: Failures, now: int)
  {
    exists a, b :: Joined(keys, a, b, freeFirst)
                   && ListsRested(a, pro, ProKey, |pro| == 1, lastFailed, now)
                   && ListsRested(b, demo, DemoKey, false, lastFailed, now)
  }

  lemma RestedGrows(keys: seq<string>, key: string, keyType: KeyType, lastFailed: Failures, now: int)
    requires ListsRested(Rested(keys, keyType, lastFailed, now), keys, keyType, false, lastFailed, now)
    ensures ListsRested(Rested(keys + [key], keyType, lastFailed, now), keys + [key], keyType, false, lastFailed, now)
  {
    var rests := !InBackoff(lastFailed, key, now);
    SelectsOneMore(Typed(keys, keyType), APIKey(key, keyType), Rested(keys, keyType, lastFailed, now),
                   RestedAt(keys, false, lastFailed, now), rests);
    RestedStep(keys, key, keyType, lastFailed, now);
    RestedAtStep(keys, key, lastFailed, now);
  }

  lemma RestedStep(keys: seq<string>, key: string, keyType: KeyType, lastFailed: Failures, now: int)
    ensures Rested(keys + [key], keyType, lastFailed, now)
         == Rested(keys, keyType, lastFailed, now)
            + if !InBackoff(lastFailed, key, now) then [APIKey(key, keyType)] else []
    ensures Typed(keys + [key], keyType) == Typed(keys, keyType) + [APIKey(key, keyType)]
  {
    assert (keys + [key])[..|keys|] == keys;
  }

  lemma RestedAtStep(keys: seq<string>, key: string, lastFailed: Failures, now: int)
    ensures RestedAt(keys + [key], false, lastFailed, now)
         == RestedAt(keys, false, lastFailed, now) + if !InBackoff(lastFailed, key, now) then {|keys|} else {}
  {
    var all := keys + [key];
    assert forall i :: 0 <= i < |keys| ==> all[i] == keys[i];
  }

  lemma {:induction false} RestedLists(keys: seq<string>, keyType: KeyType, lastFailed: Failures, now: int)
    ensures ListsRested(Rested(keys, keyType, lastFailed, now), keys, keyType, false, lastFailed, now)
  {
    if keys == [] {
      SelectsNone<APIKey>();
      assert RestedAt(keys, false, lastFailed, now) == {} && Typed(keys, keyType) == [];
    } else {
      var n := |keys| - 1;
      RestedLists(keys[..n], keyType, lastFailed, now);
      RestedGrows(keys[..n], keys[n], keyType, lastFailed, now);
      assert keys == keys[..n] + [keys[n]];
    }
  }

  lemma SoleLists(key: string, lastFailed: Failures, now: int)
    ensures ListsRested([APIKey(key, ProKey)], [key], ProKey, true, lastFailed, now)
  {
    SelectsNone<APIKey>();
    SelectsOneMore<APIKey>([], APIKey(key, ProKey), [], {}, true);
    assert Typed([key], ProKey) == [] + [APIKey(key, ProKey)];
    assert RestedAt([key], true, lastFailed, now) == {} + {0};
    assert [] + [APIKey(key, ProKey)] == [APIKey(key, ProKey)];
  }

  lemma OfferedLists(pro: seq<string>, demo: seq<string>, lastFailed: Failures, now: int)
    ensures ListsRested(ProPart(pro, lastFailed, now), pro, ProKey, |pro| == 1, lastFailed, now)
    ensures ListsRested(Rested(demo, DemoKey, lastFailed, now), demo, DemoKey, false, lastFailed, now)
  {
    RestedLists(demo, DemoKey, lastFailed, now);
    if |pro| == 1 {
      SoleLists(pro[0], lastFailed, now);
      assert pro == [pro[0]];
    } else {
      RestedLists(pro, ProKey, lastFailed, now);
    }
  }

  /** Which keys are listed as which kind. */
  lemma ListedEntry(entries: seq<APIKey>, keys: seq<string>, keyType: KeyType, all: bool, lastFailed: Failures,
                    now: int, entry: APIKey)
    requires ListsRested(entries, keys, keyType, all, lastFailed, now)
    ensures entry in entries <==>
              && entry.keyType == keyType && entry.key in keys
              && (all || entry.key == "" || entry.key !in lastFailed || now >= lastFailed[entry.key] + BACKOFF)
  {
    SelectsMember(Typed(keys, keyType), entries, RestedAt(keys, all, lastFailed, now), entry);
    if entry.key in keys && entry.keyType == keyType {
      var p :| 0 <= p < |keys| && keys[p] == entry.key;
      assert Typed(keys, keyType)[p] == entry;
    }
  }

  lemma OfferedEntries(pro: seq<string>, demo: seq<string>, lastFailed: Failures, now: int, k: string)
    ensures APIKey(k, ProKey) in Offered(pro, demo, lastFailed, now) <==>
              pro == [k] || (k in pro && (k == "" || k !in lastFailed || now >= lastFailed[k] + BACKOFF))
    ensures APIKey(k, DemoKey) in Offered(pro, demo, lastFailed, now) <==>
              k in demo && (k == "" || k !in lastFailed || now >= lastFailed[k] + BACKOFF)
  {
    var a, b := ProPart(pro, lastFailed, now), Rested(demo, DemoKey, lastFailed, now);
    OfferedLists(pro, demo, lastFailed, now);
    ListedEntry(a, pro, ProKey, |pro| == 1, lastFailed, now, APIKey(k, ProKey));
    ListedEntry(b, demo, DemoKey, false, lastFailed, now, APIKey(k, ProKey));
    ListedEntry(a, pro, ProKey, |pro| == 1, lastFailed, now, APIKey(k, DemoKey));
    ListedEntry(b, demo, DemoKey, false, lastFailed, now, APIKey(k, DemoKey));
  }

  function KeysOf(keys: seq<APIKey>): (r: seq<string>)
    ensures |r| == |keys| && forall i :: 0 <= i < |keys| ==> r[i] == keys[i].key
  {
    seq(|keys|, i requires 0 <= i < |keys| => keys[i].key)
  }

  /** The key is listed at most once. */
  ghost predicate Once(s: seq<string>, key: string) {
    forall i, j :: 0 <= i < j < |s| ==> !(s[i] == key && s[j] == key)
  }

  predicate SolePro(pro: seq<string>, key: string) {
    |pro| == 1 && pro[0] == key
  }

  lemma OnceConcat(s: seq<string>, t: seq<string>, key: string)
    ensures Once(s + t, key) <==> Once(s, key) && Once(t, key) && !(key in s && key in t)
  {
    assert forall i :: 0 <= i < |s| ==> (s + t)[i] == s[i];
    assert forall i :: 0 <= i < |t| ==> (s + t)[|s| + i] == t[i];
    if key in s && key in t {
      var i :| 0 <= i < |s| && s[i] == key;
      var j :| 0 <= j < |t| && t[j] == key;
      assert (s + t)[i] == key && (s + t)[|s| + j] == key;
    }
  }

  lemma {:induction false} RestedKeys(keys: seq<string>, keyType: KeyType, lastFailed: Failures, now: int, key: string)
    ensures var r := KeysOf(Rested(keys, keyType, lastFailed, now));
            && (key in r <==> key in keys && !InBackoff(lastFailed, key, now))
            && (Once(keys, key) ==> Once(r, key))
  {
    if keys != [] {
      var n := |keys| - 1;
      RestedKeys(keys[..n], keyType, lastFailed, now, key);
      assert keys == keys[..n] + [keys[n]];
      OnceConcat(keys[..n], [keys[n]], key);
      var before := Rested(keys[..n], keyType, lastFailed, now);
      if !InBackoff(lastFailed, keys[n], now) {
        assert KeysOf(before + [APIKey(keys[n], keyType)]) == KeysOf(before) + [keys[n]];
        OnceConcat(KeysOf(before), [keys[n]], key);
      } else {
        assert before + [] == before;
      }
    }
  }

  /**
    The offered list ends with the keyless entry, holds a key exactly when it is
    configured and rested or the sole Pro key, and repeats only what the
    configuration repeats.
  */
  lemma OfferedKeys(pro: seq<string>, demo: seq<string>, lastFailed: Failures, now: int, key: string)
    requires key != ""
    ensures var keys := Offered(pro, demo, lastFailed, now);
            && keys[|keys| - 1] == FREE
            && (key in KeysOf(keys) <==> SolePro(pro, key) || (key in pro + demo && !InBackoff(lastFailed, key, now)))
            && (Once(pro + demo, key) ==> Once(KeysOf(keys), key))
  {
    var a, b := ProPart(pro, lastFailed, now), Rested(demo, DemoKey, lastFailed, now);
    if |pro| == 1 {
      assert KeysOf(a) == pro;
    }
    RestedKeys(pro, ProKey, lastFailed, now, key);
    RestedKeys(demo, DemoKey, lastFailed, now, key);
    OnceConcat(pro, demo, key);
    ThreeParts(a, b, key);
  }

  lemma ThreeParts(a: seq<APIKey>, b: seq<APIKey>, key: string)
    requires key != ""
    ensures var keys := KeysOf(a + b + [FREE]);
            && (key in keys <==> key in KeysOf(a) || key in KeysOf(b))
            && (Once(keys, key) <==> Once(KeysOf(a), key) && Once(KeysOf(b), key)
                                     && !(key in KeysOf(a) && key in KeysOf(b)))
  {
    assert KeysOf(a + b + [FREE]) == KeysOf(a) + KeysOf(b) + [""];
    OnceConcat(KeysOf(a), KeysOf(b), key);
    OnceConcat(KeysOf(a) + KeysOf(b), [""], key);
  }

  // ---------- backoff over whole runs ----------

  /** Two different failures of the same key are a backoff apart. */
  ghost predicate Spaced(failed: seq<Failed>, key: string) {
    forall i, j :: 0 <= i < j < |failed| && failed[i].key == key && failed[j].key == key ==>
                     failed[j].at - failed[i].at >= BACKOFF
  }

  /** The recorded time of a key is that of its latest failure. */
  ghost predicate Recorded(p: Progress, key: string) {
    forall i :: 0 <= i < |p.failed| && p.failed[i].key == key ==>
                  key in p.lastFailed && p.failed[i].at <= p.lastFailed[key] <= p.now
  }

  ghost predicate NoFailure(failed: seq<Failed>, from: nat, key: string) {
    forall k :: from <= k < |failed| ==> failed[k].key != key
  }

  predicate SameRecord(p: Progress, q: Progress, key: string) {
    (key in q.lastFailed <==> key in p.lastFailed) && (key in p.lastFailed ==> q.lastFailed[key] == p.lastFailed[key])
  }

  /** The attempts only add failures, at times when they ran. */
  lemma {:induction false} TryExtends(p: Progress, keys: seq<APIKey>, i: nat, attempts: nat -> Attempt)
    ensures var q := TryFrom(p, keys, i, attempts);
            && q.now >= p.now && p.failed <= q.failed
            && forall k :: |p.failed| <= k < |q.failed| ==> p.now <= q.failed[k].at <= q.now
    decreases |keys|
  {
    if keys != [] && !attempts(i).outcome.Success? {
      TryExtends(AfterAttempt(p, keys[0].key, attempts(i)), keys[1..], i + 1, attempts);
    }
  }

  /** A key that is not listed does not fail and keeps its record. */
  lemma {:induction false} TryNever(p: Progress, keys: seq<APIKey>, i: nat, attempts: nat -> Attempt, key: string)
    requires key !in KeysOf(keys)
    ensures var q := TryFrom(p, keys, i, attempts);
            NoFailure(q.failed, |p.failed|, key) && SameRecord(p, q, key)
    decreases |keys|
  {
    if keys != [] && !attempts(i).outcome.Success? {
      var mid := AfterAttempt(p, keys[0].key, attempts(i));
      assert KeysOf(keys) == [keys[0].key] + KeysOf(keys[1..]);
      TryExtends(mid, keys[1..], i + 1, attempts);
      TryNever(mid, keys[1..], i + 1, attempts, key);
    }
  }

  /** The failures of the key from index `from` on are at most one, which is recorded. */
  ghost predicate OnceFailed(q: Progress, from: nat, key: string) {
    && (forall k, l :: from <= k < l < |q.failed| ==> !(q.failed[k].key == key && q.failed[l].key == key))
    && (forall k :: from <= k < |q.failed| && q.failed[k].key == key ==>
                      key in q.lastFailed && q.lastFailed[key] == q.failed[k].at)
  }

  /** One call reports at most one failure of a key that is listed once, and none of one that is not listed. */
  lemma {:induction false} TryOnce(p: Progress, keys: seq<APIKey>, i: nat, attempts: nat -> Attempt, key: string)
    requires Once(KeysOf(keys), key) && key != ""
    ensures var q := TryFrom(p, keys, i, attempts);
            && OnceFailed(q, |p.failed|, key)
            && (key !in KeysOf(keys) ==> NoFailure(q.failed, |p.failed|, key))
            && (NoFailure(q.failed, |p.failed|, key) ==> SameRecord(p, q, key))
    decreases |keys|
  {
    if keys != [] && !attempts(i).outcome.Success? {
      var mid := AfterAttempt(p, keys[0].key, attempts(i));
      assert KeysOf(keys) == [keys[0].key] + KeysOf(keys[1..]);
      OnceConcat([keys[0].key], KeysOf(keys[1..]), key);
      TryExtends(mid, keys[1..], i + 1, attempts);
      var q := TryFrom(mid, keys[1..], i + 1, attempts);
      assert forall k :: |p.failed| <= k < |mid.failed| ==> q.failed[k] == mid.failed[k];
      if keys[0].key == key {
        TryNever(mid, keys[1..], i + 1, attempts, key);
        if attempts(i).outcome.Failure? {
          assert q.failed[|p.failed|] == Failed(key, mid.now);
        }
      } else {
        TryOnce(mid, keys[1..], i + 1, attempts, key);
      }
    }
  }

  lemma CallKeepsSpacing(pro: seq<string>, demo: seq<string>, p: Progress, c: Call, key: string)
    requires Once(pro + demo, key) && key != "" && !SolePro(pro, key)
    requires Spaced(p.failed, key) && Recorded(p, key)
    ensures var q := AfterCall(pro, demo, p, c);
            Spaced(q.failed, key) && Recorded(q, key)
  {
    var now := p.now + c.delay;
    var keys := Listed(pro, demo, p.lastFailed, now, c.freeFirst);
    OfferedKeys(pro, demo, p.lastFailed, now, key);
    FreeFirstKeys(Offered(pro, demo, p.lastFailed, now), key);
    OneCall(p, now, keys, c.attempts, key);
  }

  /** One call that offers the key at most once, and only when it is rested. */
  lemma OneCall(p: Progress, now: int, keys: seq<APIKey>, attempts: nat -> Attempt, key: string)
    requires p.now <= now && key != "" && Once(KeysOf(keys), key)
    requires key in KeysOf(keys) ==> !InBackoff(p.lastFailed, key, now)
    requires Spaced(p.failed, key) && Recorded(p, key)
    ensures var r := Through(keys, now, p.lastFailed, attempts);
            var q := Progress(r.now, r.lastFailed, p.failed + r.failed, None);
            Spaced(q.failed, key) && Recorded(q, key)
  {
    var start := Progress(now, p.lastFailed, [], None);
    TryExtends(start, keys, 0, attempts);
    TryOnce(start, keys, 0, attempts, key);
    var r := Through(keys, now, p.lastFailed, attempts);
    var q := Progress(r.now, r.lastFailed, p.failed + r.failed, None);
    assert forall k :: |p.failed| <= k < |q.failed| ==> q.failed[k] == r.failed[k - |p.failed|];
    assert forall k :: 0 <= k < |p.failed| ==> q.failed[k] == p.failed[k];
    forall i, j | 0 <= i < j < |q.failed| && q.failed[i].key == key && q.failed[j].key == key
      ensures q.failed[j].at - q.failed[i].at >= BACKOFF
    {
    }
    forall i | 0 <= i < |q.failed| && q.failed[i].key == key
      ensures key in q.lastFailed && q.failed[i].at <= q.lastFailed[key] <= q.now
    {
    }
  }

  lemma {:induction false} CallsKeepSpacing(pro: seq<string>, demo: seq<string>, p: Progress, calls: seq<Call>,
                                            key: string)
    requires Once(pro + demo, key) && key != "" && !SolePro(pro, key)
    requires Spaced(p.failed, key) && Recorded(p, key)
    ensures Spaced(AfterCalls(pro, demo, p, calls).failed, key)
    decreases |calls|
  {
    if calls != [] {
      CallKeepsSpacing(pro, demo, p, calls[0], key);
      CallsKeepSpacing(pro, demo, AfterCall(pro, demo, p, calls[0]), calls[1..], key);
    }
  }

  function Refused(i: nat): Attempt {
    Attempt(0, Failure("refused"))
  }

  /** With nothing in backoff, every configured key is offered. */
  lemma {:induction false} AllRested(keys: seq<string>, keyType: KeyType, now: int)
    ensures KeysOf(Rested(keys, keyType, map[], now)) == keys
  {
    if keys != [] {
      var n := |keys| - 1;
      AllRested(keys[..n], keyType, now);
      var before := Rested(keys[..n], keyType, map[], now);
      assert KeysOf(before + [APIKey(keys[n], keyType)]) == KeysOf(before) + [keys[n]];
    }
  }

  /** A call whose every attempt is refused at once reports one failure for each offered entry, in order. */
  lemma {:induction false} AllRefused(p: Progress, keys: seq<APIKey>, i: nat)
    ensures var q := TryFrom(p, keys, i, Refused);
            && q.now == p.now && |q.failed| == |p.failed| + |keys| && p.failed <= q.failed
            && forall k :: 0 <= k < |keys| ==> q.failed[|p.failed| + k] == Failed(keys[k].key, p.now)
    decreases |keys|
  {
    if keys != [] {
      var mid := AfterAttempt(p, keys[0].key, Refused(i));
      AllRefused(mid, keys[1..], i + 1);
      var q := TryFrom(mid, keys[1..], i + 1, Refused);
      forall k | 0 <= k < |keys|
        ensures q.failed[|p.failed| + k] == Failed(keys[k].key, p.now)
      {
        if k == 0 {
          assert q.failed[|p.failed|] == mid.failed[|p.failed|];
        } else {
          assert q.failed[|mid.failed| + (k - 1)] == Failed(keys[1..][k - 1].key, mid.now);
        }
      }
    }
  }

  const REFUSED := Call(0, false, Refused)

  /** Such a call fails at once with every key on offer. */
  lemma CallRefused(pro: seq<string>, demo: seq<string>, p: Progress)
    ensures var q := AfterCall(pro, demo, p, REFUSED);
            var keys := Offered(pro, demo, p.lastFailed, p.now);
            && q.now == p.now && p.failed <= q.failed && |q.failed| == |p.failed| + |keys|
            && forall k :: 0 <= k < |keys| ==> q.failed[|p.failed| + k] == Failed(keys[k].key, p.now)
  {
    var keys := Offered(pro, demo, p.lastFailed, p.now);
    AllRefused(Progress(p.now, p.lastFailed, [], None), keys, 0);
  }

  /** The first such call fails once for each place in the configuration. */
  lemma FirstCallRefused(pro: seq<string>, demo: seq<string>, start: int, i: nat)
    requires i < |pro + demo|
    ensures var failed := AfterCall(pro, demo, Progress(start, map[], [], None), REFUSED).failed;
            i < |failed| && failed[i] == Failed((pro + demo)[i], start)
  {
    var p := Progress(start, map[], [], None);
    var keys := Offered(pro, demo, map[], start);
    AllRested(pro, ProKey, start);
    AllRested(demo, DemoKey, start);
    if |pro| == 1 {
      assert KeysOf(ProPart(pro, map[], start)) == pro;
    }
    assert KeysOf(keys) == (pro + demo) + [""];
    CallRefused(pro, demo, p);
    assert KeysOf(keys)[i] == keys[i].key;
  }

  /** A key that is configured twice fails twice in the first such call. */
  lemma RepeatedKeyIsNotSpaced(pro: seq<string>, demo: seq<string>, start: int, key: string)
    requires !Once(pro + demo, key)
    ensures !Spaced(AfterCalls(pro, demo, Progress(start, map[], [], None), [REFUSED]).failed, key)
  {
    var p := Progress(start, map[], [], None);
    var i, j :| 0 <= i < j < |pro + demo| && (pro + demo)[i] == key && (pro + demo)[j] == key;
    FirstCallRefused(pro, demo, start, i);
    FirstCallRefused(pro, demo, start, j);
    var failed := AfterCall(pro, demo, p, REFUSED).failed;
    assert failed[i] == Failed(key, start) && failed[j] == Failed(key, start);
    assert [REFUSED][1..] == [];
    assert AfterCalls(pro, demo, p, [REFUSED]).failed == failed;
  }

  /** A sole Pro key is offered even in backoff, and fails in each of two such calls at the same time. */
  lemma SoleProKeyIsNotSpaced(pro: seq<string>, demo: seq<string>, start: int, key: string)
    requires SolePro(pro, key)
    ensures !Spaced(AfterCalls(pro, demo, Progress(start, map[], [], None), [REFUSED, REFUSED]).failed, key)
  {
    var p := Progress(start, map[], [], None);
    var q := AfterCall(pro, demo, p, REFUSED);
    var r := AfterCall(pro, demo, q, REFUSED);
    CallRefused(pro, demo, p);
    CallRefused(pro, demo, q);
    assert [REFUSED, REFUSED][1..] == [REFUSED] && [REFUSED][1..] == [];
    assert AfterCalls(pro, demo, q, [REFUSED]) == AfterCalls(pro, demo, r, []);
    assert AfterCalls(pro, demo, p, [REFUSED, REFUSED]) == AfterCalls(pro, demo, q, [REFUSED]);
    var first, second := Offered(pro, demo, p.lastFailed, p.now), Offered(pro, demo, q.lastFailed, q.now);
    assert first[0].key == key && second[0].key == key;
    assert r.failed[0] == q.failed[|p.failed| + 0] == Failed(key, start);
    assert r.failed[|q.failed| + 0] == Failed(key, start);
  }

  ghost predicate AlwaysSpaced(pro: seq<string>, demo: seq<string>, key: string) {
    forall start: int, calls: seq<Call> ::
      Spaced(AfterCalls(pro, demo, Progress(start, map[], [], None), calls).failed, key)
  }

  /**
    In every sequence of calls that do not overlap, with or without the keyless
    entry in front, two reported failures of the same key are at least the
    backoff time apart, if and only if the configuration lists that key at most
    once and it is not the only Pro key.
  */
  lemma BackoffHolds(pro: seq<string>, demo: seq<string>, key: string)
    requires key != ""
    ensures AlwaysSpaced(pro, demo, key) <==> Once(pro + demo, key) && !SolePro(pro, key)
  {
    if !Once(pro + demo, key) {
      RepeatedKeyIsNotSpaced(pro, demo, 0, key);
    } else if SolePro(pro, key) {
      SoleProKeyIsNotSpaced(pro, demo, 0, key);
    } else {
      forall start: int, calls: seq<Call>
        ensures Spaced(AfterCalls(pro, demo, Progress(start, map[], [], None), calls).failed, key)
      {
        CallsKeepSpacing(pro, demo, Progress(start, map[], [], None), calls, key);
      }
    }
  }

  // ---------- trying the free key first ----------

  /** The index of the first keyless entry, or the length. */
  function FreeIndex(keys: seq<APIKey>): (i: nat)
    ensures i <= |keys|
    ensures forall k :: 0 <= k < i ==> !keys[k].keyType.NoKey?
    ensures i < |keys| ==> keys[i].keyType.NoKey?
  {
    if keys == [] || keys[0].keyType.NoKey? then 0 else 1 + FreeIndex(keys[1..])
  }

  function MovedToFront(keys: seq<APIKey>, i: nat): seq<APIKey>
    requires i < |keys|
  {
    [keys[i]] + keys[..i] + keys[i + 1..]
  }

  /** The keys with the first keyless entry in front. */
  function FreeFirst(keys: seq<APIKey>): seq<APIKey> {
    if FreeIndex(keys) == |keys| then keys else MovedToFront(keys, FreeIndex(keys))
  }

  /**
    Moves the first keyless entry to the front.  The inner append shifts the
    entries after it within the caller's own array, whose last slot keeps its
    old value; the result is a new slice with nothing lost.
  */
  method PrependFreeKey(keys: array<APIKey>) returns (result: seq<APIKey>)
    modifies keys
    ensures var before := old(keys[..]);
            var i := FreeIndex(before);
            && result == FreeFirst(before)
            && (i < |before| ==> result == [before[i]] + before[..i] + before[i + 1..])
            && (i == |before| ==> result == before)
            && if i == |before| then keys[..] == before
               else keys[..] == before[..i] + before[i + 1..] + [before[|before| - 1]]
  {
    ghost var before := keys[..];
    var i := 0;
    while i < keys.Length && !keys[i].keyType.NoKey?
      invariant 0 <= i <= keys.Length
      invariant forall k :: 0 <= k < i ==> !keys[k].keyType.NoKey?
    {
      i := i + 1;
    }
    if i == keys.Length {
      assert keys[..] == before;
      return keys[..];
    }
    FirstFree(before, i);
    var key := keys[i];
    RemoveInPlace(keys, i);
    ghost var rest := before[..i] + before[i + 1..];
    assert keys[..keys.Length - 1] == rest && keys[..] == rest + [before[|before| - 1]];
    result := [key] + keys[..keys.Length - 1];
    assert [key] + rest == MovedToFront(before, i);
  }

  /** Only the last entry on offer is keyless. */
  lemma FreeIsLast(pro: seq<string>, demo: seq<string>, lastFailed: Failures, now: int)
    ensures var a, b := ProPart(pro, lastFailed, now), Rested(demo, DemoKey, lastFailed, now);
            FreeFirst(Offered(pro, demo, lastFailed, now)) == [FREE] + a + b
  {
    var a, b := ProPart(pro, lastFailed, now), Rested(demo, DemoKey, lastFailed, now);
    var keys := Offered(pro, demo, lastFailed, now);
    OfferedLists(pro, demo, lastFailed, now);
    forall i | 0 <= i < |a + b|
      ensures !keys[i].keyType.NoKey?
    {
      assert keys[i] in a || keys[i] in b;
      ListedEntry(a, pro, ProKey, |pro| == 1, lastFailed, now, keys[i]);
      ListedEntry(b, demo, DemoKey, false, lastFailed, now, keys[i]);
    }
    FirstFree(keys, |a + b|);
    assert keys[..|a + b|] == a + b && keys[|a + b| + 1..] == [];
    assert [FREE] + (a + b) + [] == [FREE] + a + b;
  }

  lemma ListedParts(keys: seq<APIKey>, pro: seq<string>, demo: seq<string>, lastFailed: Failures, now: int,
                    freeFirst: bool)
    requires keys == Listed(pro, demo, lastFailed, now, freeFirst)
    ensures IsOffer(keys, pro, demo, freeFirst, lastFailed, now)
  {
    var a, b := ProPart(pro, lastFailed, now), Rested(demo, DemoKey, lastFailed, now);
    OfferedLists(pro, demo, lastFailed, now);
    FreeIsLast(pro, demo, lastFailed, now);
    assert Joined(keys, a, b, freeFirst);
  }

  lemma OfferedKinds(keys: seq<APIKey>, pro: seq<string>, demo: seq<string>, lastFailed: Failures, now: int)
    requires keys == Offered(pro, demo, lastFailed, now)
    ensures forall k :: APIKey(k, ProKey) in keys <==>
                          pro == [k] || (k in pro && (k == "" || k !in lastFailed || now >= lastFailed[k] + BACKOFF))
    ensures forall k :: APIKey(k, DemoKey) in keys <==>
                          k in demo && (k == "" || k !in lastFailed || now >= lastFailed[k] + BACKOFF)
  {
    forall k: string
      ensures APIKey(k, ProKey) in keys <==>
                pro == [k] || (k in pro && (k == "" || k !in lastFailed || now >= lastFailed[k] + BACKOFF))
      ensures APIKey(k, DemoKey) in keys <==>
                k in demo && (k == "" || k !in lastFailed || now >= lastFailed[k] + BACKOFF)
    {
      OfferedEntries(pro, demo, lastFailed, now, k);
    }
  }

  lemma {:induction false} FirstFree(keys: seq<APIKey>, i: nat)
    requires i < |keys| && keys[i].keyType.NoKey? && forall k :: 0 <= k < i ==> !keys[k].keyType.NoKey?
    ensures FreeIndex(keys) == i
  {
  }

  /** append(keys[:i], keys[i+1:]...): shifts the later entries down by one; the last slot keeps its value. */
  method RemoveInPlace(keys: array<APIKey>, i: nat)
    requires i < keys.Length
    modifies keys
    ensures keys[..keys.Length - 1] == old(keys[..i]) + old(keys[i + 1..])
    ensures keys[keys.Length - 1] == old(keys[keys.Length - 1])
  {
    ghost var before := keys[..];
    var j := i;
    while j + 1 < keys.Length
      invariant i <= j < keys.Length
      invariant forall k :: 0 <= k < i ==> keys[k] == before[k]
      invariant forall k :: i <= k < j ==> keys[k] == before[k + 1]
      invariant forall k :: j <= k < keys.Length ==> keys[k] == before[k]
    {
      keys[j] := keys[j + 1];
      j := j + 1;
    }
  }

  /** Moving an entry to the front loses and repeats nothing, and keeps the order of the others. */
  lemma MoveToFrontIsPermutation(keys: seq<APIKey>, i: nat)
    requires i < |keys|
    ensures multiset(MovedToFront(keys, i)) == multiset(keys)
    ensures MovedToFront(keys, i)[1..] == keys[..i] + keys[i + 1..]
  {
    var a, x, b := keys[..i], keys[i], keys[i + 1..];
    assert keys == a + [x] + b;
    assert multiset(keys) == multiset(a) + multiset{x} + multiset(b);
    assert multiset([x] + a + b) == multiset{x} + multiset(a) + multiset(b);
  }

  lemma KeysApart(a: seq<APIKey>, x: APIKey, b: seq<APIKey>)
    ensures KeysOf(a + [x] + b) == KeysOf(a) + [x.key] + KeysOf(b)
    ensures KeysOf([x] + a + b) == [x.key] + KeysOf(a) + KeysOf(b)
  {
  }

  /** Putting the keyless entry in front lists the same keys, and each as often. */
  lemma FreeFirstKeys(keys: seq<APIKey>, key: string)
    ensures key in KeysOf(FreeFirst(keys)) <==> key in KeysOf(keys)
    ensures Once(KeysOf(FreeFirst(keys)), key) <==> Once(KeysOf(keys), key)
  {
    var i := FreeIndex(keys);
    if i < |keys| {
      var a, x, b := keys[..i], keys[i], keys[i + 1..];
      assert keys == a + [x] + b;
      KeysApart(a, x, b);
      OnceMoved(KeysOf(a), [x.key], KeysOf(b), key);
    }
  }

  lemma OnceMoved(a: seq<string>, x: seq<string>, b: seq<string>, key: string)
    ensures Once(x + a + b, key) <==> Once(a + x + b, key)
  {
    OnceConcat(a + x, b, key);
    OnceConcat(a, x, key);
    OnceConcat(x + a, b, key);
    OnceConcat(x, a, key);
  }
}
