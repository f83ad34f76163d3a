/**
  Splitting a list of ids into request-sized chunks and fanning the answers
  back in (coingecko_common/process_in_chunks.go).

  A chunk is limited both in the number of items and, when the second limit is
  positive, in the sum of the item lengths.  Fetching is an arbitrary function of
  the call's number and its chunk, so it may answer differently every time;
  `cancelled(i)` says whether the wait before call i ends by cancellation.
*/
module Chunks {
  import opened Wrappers
  import opened Sequences

  datatype ChunkError = FetchFailed(error: string) | ContextDone

  function TotalLength(items: seq<string>): nat {
    if items == [] then 0 else TotalLength(items[..|items| - 1]) + |items[|items| - 1]|
  }

  predicate Fits(chunk: seq<string>, itemsLimit: int, lengthLimit: int) {
    |chunk| <= itemsLimit && (lengthLimit > 0 ==> TotalLength(chunk) <= lengthLimit)
  }

  /** What may be sent as one request: both limits hold, or a single item that no limit can help. */
  predicate LegalChunk(chunk: seq<string>, itemsLimit: int, lengthLimit: int) {
    |chunk| > 0 && (|chunk| == 1 || Fits(chunk, itemsLimit, lengthLimit))
  }

  // ---------- the greedy split ----------

  /** Extends a chunk of n items while both limits allow one more. */
  function Grow(items: seq<string>, n: nat, itemsLimit: int, lengthLimit: int): (m: nat)
    requires n <= |items|
    ensures n <= m <= |items|
    decreases |items| - n
  {
    if n < |items| && n < itemsLimit
       && !(lengthLimit > 0 && TotalLength(items[..n]) + |items[n]| > lengthLimit)
    then Grow(items, n + 1, itemsLimit, lengthLimit)
    else n
  }

  function FirstChunk(items: seq<string>, itemsLimit: int, lengthLimit: int): (k: nat)
    requires items != []
    ensures 0 < k <= |items|
  {
    Max(1, Grow(items, 0, itemsLimit, lengthLimit))
  }

  /** The chunks of the greedy split, none for a non-positive item limit. */
  function Split(items: seq<string>, itemsLimit: int, lengthLimit: int): seq<seq<string>> {
    if items == [] || itemsLimit <= 0 then []
    else
      var k := FirstChunk(items, itemsLimit, lengthLimit);
      [items[..k]] + Split(items[k..], itemsLimit, lengthLimit)
  }

  // ---------- the loops of the source ----------

  predicate AllOk<T>(chunks: seq<seq<string>>, fetch: (nat, seq<string>) -> Result<T, string>) {
    forall i :: 0 <= i < |chunks| ==> fetch(i, chunks[i]).Ok?
  }

  function Values<T>(chunks: seq<seq<string>>, fetch: (nat, seq<string>) -> Result<T, string>): (vs: seq<T>)
    requires AllOk(chunks, fetch)
    ensures |vs| == |chunks|
  {
    seq(|chunks|, i requires 0 <= i < |chunks| => fetch(i, chunks[i]).value)
  }

  /** None of the waits before the first n calls was cancelled. */
  predicate Uninterrupted(n: nat, delay: int, cancelled: nat -> bool) {
    delay > 0 ==> forall i :: 0 < i < n ==> !cancelled(i)
  }

  /** The inner loop: where the chunk that begins at start ends. */
  method ChunkEnd(items: seq<string>, start: nat, itemsLimit: int, lengthLimit: int) returns (end: nat)
    requires start < |items|
    ensures start < end <= |items|
    ensures end - start == FirstChunk(items[start..], itemsLimit, lengthLimit)
  {
    end := start;
    var currentLength := 0;
    ghost var rest := items[start..];
    while end < |items| && end - start < itemsLimit
      invariant start <= end <= |items|
      invariant currentLength == TotalLength(rest[..end - start])
      invariant Grow(rest, end - start, itemsLimit, lengthLimit) == Grow(rest, 0, itemsLimit, lengthLimit)
    {
      var itemLength := |items[end]|;
      assert rest[end - start] == items[end];
      assert rest[..end - start + 1][..end - start] == rest[..end - start];
      if lengthLimit > 0 && currentLength + itemLength > lengthLimit {
        break;
      }
      currentLength := currentLength + itemLength;
      end := end + 1;
    }
    if end == start && start < |items| {
      end := start + 1;
    }
  }

  /** Every chunk so far was fetched after an undisturbed wait; `rest` are the chunks to come. */
  ghost predicate Ongoing<T>(all: seq<seq<string>>, calls: seq<seq<string>>, rest: seq<seq<string>>, delay: int,
                             fetch: (nat, seq<string>) -> Result<T, string>, cancelled: nat -> bool, results: seq<T>)
  {
    && all == calls + rest
    && AllOk(calls, fetch) && results == Values(calls, fetch)
    && Uninterrupted(|calls|, delay, cancelled)
  }

  /**
    How the fetching of all chunks may end after the given calls: with the
    answers to all of them, with the error of the last call, which no other call
    had, or with a cancelled wait before the next chunk.
  */
  ghost predicate Ends<T>(all: seq<seq<string>>, calls: seq<seq<string>>, delay: int,
                          fetch: (nat, seq<string>) -> Result<T, string>, cancelled: nat -> bool,
                          r: Result<seq<T>, ChunkError>)
  {
    && calls <= all && Uninterrupted(|calls|, delay, cancelled)
    && match r
       case Ok(values) => calls == all && AllOk(calls, fetch) && values == Values(calls, fetch)
       case Err(FetchFailed(error)) =>
         && calls != []
         && AllOk(calls[..|calls| - 1], fetch)
         && fetch(|calls| - 1, calls[|calls| - 1]) == Err(error)
       case Err(ContextDone) =>
         delay > 0 && 0 < |calls| < |all| && cancelled(|calls|) && AllOk(calls, fetch)
  }

  lemma CallEnds<T>(all: seq<seq<string>>, calls: seq<seq<string>>, rest: seq<seq<string>>, delay: int,
                    fetch: (nat, seq<string>) -> Result<T, string>, cancelled: nat -> bool, results: seq<T>)
    requires Ongoing(all, calls, rest, delay, fetch, cancelled, results) && rest != []
    requires delay > 0 && calls != [] ==> !cancelled(|calls|)
    ensures var next := calls + [rest[0]];
            match fetch(|calls|, rest[0])
            case Ok(value) => Ongoing(all, next, rest[1..], delay, fetch, cancelled, results + [value])
            case Err(error) => Ends(all, next, delay, fetch, cancelled, Err(FetchFailed(error)))
  {
    var next := calls + [rest[0]];
    assert next[..|calls|] == calls;
    assert all == next + rest[1..];
  }

  /** `calls` lists the chunks that were actually requested, in order. */
  method ProcessInChunks<T>(items: seq<string>, itemsLimit: int, lengthLimit: int, delay: int,
                            fetch: (nat, seq<string>) -> Result<T, string>, cancelled: nat -> bool)
    returns (r: Result<seq<T>, ChunkError>, calls: seq<seq<string>>)
    ensures Ends(Split(items, itemsLimit, lengthLimit), calls, delay, fetch, cancelled, r)
  {
    calls := [];
    if |items| == 0 || itemsLimit <= 0 {
      return Ok([]), calls;
    }
    var results: seq<T> := [];
    var isFirst := true;
    var start := 0;
    ghost var all := Split(items, itemsLimit, lengthLimit);
    ghost var rest := all;
    assert items[start..] == items;
    while start < |items|
      invariant 0 <= start <= |items|
      invariant isFirst <==> calls == []
      invariant rest == Split(items[start..], itemsLimit, lengthLimit)
      invariant Ongoing(all, calls, rest, delay, fetch, cancelled, results)
      decreases |items| - start
    {
      var end := ChunkEnd(items, start, itemsLimit, lengthLimit);
      var chunk := items[start..end];
      SplitStep(items, start, end, itemsLimit, lengthLimit);
      start := end;
      if delay > 0 && !isFirst && cancelled(|calls|) {
        return Err(ContextDone), calls;
      }
      isFirst := false;
      var answer := fetch(|calls|, chunk);
      CallEnds(all, calls, rest, delay, fetch, cancelled, results);
      calls, rest := calls + [chunk], rest[1..];
      if answer.Err? {
        return Err(FetchFailed(answer.error)), calls;
      }
      results := results + [answer.value];
    }
    return Ok(results), calls;
  }

  lemma SplitStep(items: seq<string>, start: nat, end: nat, itemsLimit: int, lengthLimit: int)
    requires start < end <= |items| && itemsLimit > 0
    requires end - start == FirstChunk(items[start..], itemsLimit, lengthLimit)
    ensures var s := Split(items[start..], itemsLimit, lengthLimit);
            s != [] && s[0] == items[start..end] && s[1..] == Split(items[end..], itemsLimit, lengthLimit)
  {
    SliceOfSuffix(items, start, end);
    SplitUnfolds(items[start..], itemsLimit, lengthLimit);
  }

  lemma SplitUnfolds(items: seq<string>, itemsLimit: int, lengthLimit: int)
    requires items != [] && itemsLimit > 0
    ensures var k := FirstChunk(items, itemsLimit, lengthLimit);
            var s := Split(items, itemsLimit, lengthLimit);
            s != [] && s[0] == items[..k] && s[1..] == Split(items[k..], itemsLimit, lengthLimit)
  {
  }

  lemma SliceOfSuffix(items: seq<string>, start: nat, end: nat)
    requires start <= end <= |items|
    ensures items[start..][..end - start] == items[start..end]
    ensures items[start..][end - start..] == items[end..]
  {
  }

  /** Every call but the last succeeded. */
  lemma EarlierCall<T>(all: seq<seq<string>>, calls: seq<seq<string>>, delay: int,
                       fetch: (nat, seq<string>) -> Result<T, string>, cancelled: nat -> bool,
                       r: Result<seq<T>, ChunkError>, i: nat)
    requires Ends(all, calls, delay, fetch, cancelled, r) && i + 1 < |calls|
    ensures fetch(i, all[i]).Ok?
  {
    assert calls[..|calls| - 1][i] == calls[i] == all[i];
  }

  /** There is only one way to end, so success means that every fetch succeeds and no wait is cancelled. */
  lemma EndsUnique<T>(all: seq<seq<string>>, a: seq<seq<string>>, b: seq<seq<string>>, delay: int,
                      fetch: (nat, seq<string>) -> Result<T, string>, cancelled: nat -> bool,
                      r: Result<seq<T>, ChunkError>, q: Result<seq<T>, ChunkError>)
    requires Ends(all, a, delay, fetch, cancelled, r) && Ends(all, b, delay, fetch, cancelled, q)
    ensures a == b && r == q
    ensures r.Ok? <==> AllOk(all, fetch) && Uninterrupted(|all|, delay, cancelled)
  {
    forall i: nat | i + 1 < |a|
      ensures fetch(i, all[i]).Ok?
    {
      EarlierCall(all, a, delay, fetch, cancelled, r, i);
    }
    forall i: nat | i + 1 < |b|
      ensures fetch(i, all[i]).Ok?
    {
      EarlierCall(all, b, delay, fetch, cancelled, q, i);
    }
  }

  /** Later maps override earlier ones. */
  function Merge<T>(maps: seq<map<string, T>>): map<string, T> {
    if maps == [] then map[] else Merge(maps[..|maps| - 1]) + maps[|maps| - 1]
  }

  /** The inner loop of the map fan-in: the keys of m may come in any order. */
  method MergeInto<T>(before: map<string, T>, m: map<string, T>) returns (result: map<string, T>)
    ensures result == before + m
  {
    result := before;
    var keys := m.Keys;
    while keys != {}
      invariant keys <= m.Keys
      invariant result.Keys == before.Keys + (m.Keys - keys)
      invariant forall k :: k in result ==> result[k] == if k in m && k !in keys then m[k] else before[k]
      decreases |keys|
    {
      var k :| k in keys;
      result := result[k := m[k]];
      keys := keys - {k};
    }
  }

  method ChunkMapFetcher<T>(items: seq<string>, itemsLimit: int, lengthLimit: int, delay: int,
                            fetch: (nat, seq<string>) -> Result<map<string, T>, string>, cancelled: nat -> bool)
    returns (r: Result<map<string, T>, ChunkError>, calls: seq<seq<string>>)
    ensures match r
            case Ok(value) =>
              && calls == Split(items, itemsLimit, lengthLimit)
              && AllOk(calls, fetch) && value == Merge(Values(calls, fetch))
            case Err(error) => Ends(Split(items, itemsLimit, lengthLimit), calls, delay, fetch, cancelled, Err(error))
  {
    var chunkResults;
    chunkResults, calls := ProcessInChunks(items, itemsLimit, lengthLimit, delay, fetch, cancelled);
    if chunkResults.Err? {
      return Err(chunkResults.error), calls;
    }
    var maps := chunkResults.value;
    var result: map<string, T> := map[];
    for i := 0 to |maps|
      invariant result == Merge(maps[..i])
    {
      result := MergeInto(result, maps[i]);
      assert maps[..i + 1][..i] == maps[..i];
    }
    assert maps[..|maps|] == maps;
    return Ok(result), calls;
  }

  method ChunkArrayFetcher<T>(items: seq<string>, itemsLimit: int, lengthLimit: int, delay: int,
                              fetch: (nat, seq<string>) -> Result<seq<T>, string>, cancelled: nat -> bool)
    returns (r: Result<seq<T>, ChunkError>, calls: seq<seq<string>>)
    ensures match r
            case Ok(value) =>
              && calls == Split(items, itemsLimit, lengthLimit)
              && AllOk(calls, fetch) && value == Flatten(Values(calls, fetch))
            case Err(error) => Ends(Split(items, itemsLimit, lengthLimit), calls, delay, fetch, cancelled, Err(error))
  {
    var chunkResults;
    chunkResults, calls := ProcessInChunks(items, itemsLimit, lengthLimit, delay, fetch, cancelled);
    if chunkResults.Err? {
      return Err(chunkResults.error), calls;
    }
    var parts := chunkResults.value;
    var result: seq<T> := [];
    for i := 0 to |parts|
      invariant result == Flatten(parts[..i])
    {
      assert parts[..i + 1] == parts[..i] + [parts[i]];
      FlattenAppend(parts[..i], parts[i]);
      result := result + parts[i];
    }
    assert parts[..|parts|] == parts;
    return Ok(result), calls;
  }

  // ---------- the split is a maximal legal partition ----------

  /** A way of cutting items into requests that all obey the limits. */
  predicate LegalSplit(items: seq<string>, chunks: seq<seq<string>>, itemsLimit: int, lengthLimit: int) {
    Flatten(chunks) == items && forall i :: 0 <= i < |chunks| ==> LegalChunk(chunks[i], itemsLimit, lengthLimit)
  }

  lemma {:induction false} GrowFits(items: seq<string>, n: nat, itemsLimit: int, lengthLimit: int)
    requires n <= |items| && Fits(items[..n], itemsLimit, lengthLimit)
    ensures Fits(items[..Grow(items, n, itemsLimit, lengthLimit)], itemsLimit, lengthLimit)
    decreases |items| - n
  {
    if Grow(items, n, itemsLimit, lengthLimit) != n {
      assert items[..n + 1][..n] == items[..n];
      GrowFits(items, n + 1, itemsLimit, lengthLimit);
    }
  }

  lemma {:induction false} TotalLengthConcat(s: seq<string>, t: seq<string>)
    ensures TotalLength(s + t) == TotalLength(s) + TotalLength(t)
  {
    if t == [] {
      assert s + t == s;
    } else {
      assert (s + t)[..|s + t| - 1] == s + t[..|t| - 1];
      TotalLengthConcat(s, t[..|t| - 1]);
    }
  }

  /** The length that a chunk is limited in is that of its items' characters. */
  lemma {:induction false} TotalLengthIsFlat(items: seq<string>)
    ensures TotalLength(items) == |Flatten(items)|
  {
    if items != [] {
      var n := |items| - 1;
      TotalLengthIsFlat(items[..n]);
      FlattenAppend(items[..n], items[n]);
      assert items == items[..n] + [items[n]];
    }
  }

  /** The greedy chunk is at least as long as any prefix that fits. */
  lemma {:induction false} GrowReaches(items: seq<string>, n: nat, m: nat, itemsLimit: int, lengthLimit: int)
    requires n <= m <= |items| && Fits(items[..m], itemsLimit, lengthLimit)
    ensures m <= Grow(items, n, itemsLimit, lengthLimit)
    decreases m - n
  {
    if n < m {
      assert items[..m] == items[..n + 1] + items[n + 1..m];
      TotalLengthConcat(items[..n + 1], items[n + 1..m]);
      assert items[..n + 1][..n] == items[..n];
      GrowReaches(items, n + 1, m, itemsLimit, lengthLimit);
    }
  }

  lemma FirstChunkIsLegalAndMaximal(items: seq<string>, itemsLimit: int, lengthLimit: int)
    requires items != [] && itemsLimit > 0
    ensures var k := FirstChunk(items, itemsLimit, lengthLimit);
            && LegalChunk(items[..k], itemsLimit, lengthLimit)
            && forall m :: k < m <= |items| ==> !LegalChunk(items[..m], itemsLimit, lengthLimit)
  {
    var k := FirstChunk(items, itemsLimit, lengthLimit);
    assert items[..0] == [];
    GrowFits(items, 0, itemsLimit, lengthLimit);
    forall m | k < m <= |items|
      ensures !LegalChunk(items[..m], itemsLimit, lengthLimit)
    {
      if Fits(items[..m], itemsLimit, lengthLimit) {
        GrowReaches(items, 0, m, itemsLimit, lengthLimit);
      }
    }
  }

  /**
    The chunks cut the list into legal requests, in order and without losing an
    item, and no chunk could have taken the first item of the next one.
  */
  lemma {:induction false} SplitIsMaximalPartition(items: seq<string>, itemsLimit: int, lengthLimit: int)
    requires itemsLimit > 0
    ensures var chunks := Split(items, itemsLimit, lengthLimit);
            && LegalSplit(items, chunks, itemsLimit, lengthLimit)
            && forall i :: 0 <= i < |chunks| - 1 ==>
                             !LegalChunk(chunks[i] + [chunks[i + 1][0]], itemsLimit, lengthLimit)
  {
    if items != [] {
      var chunks := Split(items, itemsLimit, lengthLimit);
      var k := FirstChunk(items, itemsLimit, lengthLimit);
      FirstChunkIsLegalAndMaximal(items, itemsLimit, lengthLimit);
      SplitIsMaximalPartition(items[k..], itemsLimit, lengthLimit);
      assert chunks[1..] == Split(items[k..], itemsLimit, lengthLimit);
      if |chunks| > 1 {
        assert chunks[1] == chunks[1..][0];
        var j := FirstChunk(items[k..], itemsLimit, lengthLimit);
        assert chunks[1] == items[k..][..j];
        assert chunks[0] + [chunks[1][0]] == items[..k + 1];
      }
      forall i | 0 <= i < |chunks| - 1
        ensures !LegalChunk(chunks[i] + [chunks[i + 1][0]], itemsLimit, lengthLimit)
      {
        if i > 0 {
          assert chunks[i] == chunks[1..][i - 1] && chunks[i + 1] == chunks[1..][i];
        }
      }
    }
  }

  // ---------- no legal split is shorter ----------

  lemma CutFirst(items: seq<string>, b: nat, chunks: seq<seq<string>>, itemsLimit: int, lengthLimit: int)
    requires b < |items| && LegalSplit(items[b..], chunks, itemsLimit, lengthLimit)
    ensures chunks != [] && b + |chunks[0]| <= |items|
    ensures LegalChunk(items[b..b + |chunks[0]|], itemsLimit, lengthLimit)
    ensures LegalSplit(items[b + |chunks[0]|..], chunks[1..], itemsLimit, lengthLimit)
  {
    var first := chunks[0];
    assert Flatten(chunks) == first + Flatten(chunks[1..]);
    assert items[b..][..|first|] == first == items[b..b + |first|];
    assert items[b..][|first|..] == Flatten(chunks[1..]) == items[b + |first|..];
    assert forall i :: 0 <= i < |chunks[1..]| ==> chunks[1..][i] == chunks[i + 1];
  }

  /** The greedy chunk from a reaches past the end of any legal chunk that covers a. */
  lemma GreedyReaches(items: seq<string>, a: nat, b: nat, next: nat, itemsLimit: int, lengthLimit: int)
    requires itemsLimit > 0 && b <= a < next <= |items|
    requires LegalChunk(items[b..next], itemsLimit, lengthLimit)
    ensures next <= a + FirstChunk(items[a..], itemsLimit, lengthLimit)
  {
    var rest := items[a..];
    assert items[b..next] == items[b..a] + rest[..next - a];
    LegalSuffix(items[b..a], rest[..next - a], itemsLimit, lengthLimit);
    FirstChunkIsLegalAndMaximal(rest, itemsLimit, lengthLimit);
  }

  lemma LegalSuffix(front: seq<string>, back: seq<string>, itemsLimit: int, lengthLimit: int)
    requires LegalChunk(front + back, itemsLimit, lengthLimit) && back != []
    ensures LegalChunk(back, itemsLimit, lengthLimit)
  {
    TotalLengthConcat(front, back);
  }

  /** Where the greedy split stands after one more chunk, if it needs one to pass next. */
  function Ahead(items: seq<string>, a: nat, next: nat, itemsLimit: int, lengthLimit: int): nat
    requires a < |items|
  {
    if next <= a then a else a + FirstChunk(items[a..], itemsLimit, lengthLimit)
  }

  lemma OneChunkAhead(items: seq<string>, a: nat, next: nat, itemsLimit: int, lengthLimit: int)
    requires itemsLimit > 0 && a < |items|
    ensures var c := Ahead(items, a, next, itemsLimit, lengthLimit);
            && c <= |items|
            && |Split(items[a..], itemsLimit, lengthLimit)| <= 1 + |Split(items[c..], itemsLimit, lengthLimit)|
  {
    var k := FirstChunk(items[a..], itemsLimit, lengthLimit);
    assert items[a..][k..] == items[a + k..];
  }

  /** From a position at least as far on, the greedy split needs no more chunks than any legal split. */
  lemma {:induction false} GreedyStaysAhead(items: seq<string>, a: nat, b: nat, chunks: seq<seq<string>>,
                                            itemsLimit: int, lengthLimit: int)
    requires itemsLimit > 0 && b <= a <= |items|
    requires LegalSplit(items[b..], chunks, itemsLimit, lengthLimit)
    ensures |Split(items[a..], itemsLimit, lengthLimit)| <= |chunks|
    decreases |chunks|
  {
    if a < |items| {
      CutFirst(items, b, chunks, itemsLimit, lengthLimit);
      var next := b + |chunks[0]|;
      if a < next {
        GreedyReaches(items, a, b, next, itemsLimit, lengthLimit);
      }
      OneChunkAhead(items, a, next, itemsLimit, lengthLimit);
      var ahead := Ahead(items, a, next, itemsLimit, lengthLimit);
      GreedyStaysAhead(items, ahead, next, chunks[1..], itemsLimit, lengthLimit);
    }
  }

  /** No way of cutting the list into legal requests uses fewer requests. */
  lemma SplitIsOptimal(items: seq<string>, chunks: seq<seq<string>>, itemsLimit: int, lengthLimit: int)
    requires itemsLimit > 0
    requires LegalSplit(items, chunks, itemsLimit, lengthLimit)
    ensures |Split(items, itemsLimit, lengthLimit)| <= |chunks|
  {
    assert items[0..] == items;
    GreedyStaysAhead(items, 0, 0, chunks, itemsLimit, lengthLimit);
  }

  // ---------- how many chunks ----------

  /** The length limit never cuts a chunk short of the item limit. */
  ghost predicate LengthNeverBinds(items: seq<string>, itemsLimit: int, lengthLimit: int) {
    forall i, j :: 0 <= i <= j <= |items| && j - i <= itemsLimit ==>
                     Fits(items[i..j], itemsLimit, lengthLimit)
  }

  /**
    The number of chunks is at least the quotient n / limit rounded up, and
    exactly that quotient when the length limit never binds.
  */
  lemma {:induction false} SplitCount(items: seq<string>, itemsLimit: int, lengthLimit: int)
    requires itemsLimit > 0 && items != []
    ensures var count := |Split(items, itemsLimit, lengthLimit)|;
            && |items| <= count * itemsLimit
            && (LengthNeverBinds(items, itemsLimit, lengthLimit) ==> (count - 1) * itemsLimit < |items|)
  {
    var k := FirstChunk(items, itemsLimit, lengthLimit);
    var rest := items[k..];
    FirstChunkIsLegalAndMaximal(items, itemsLimit, lengthLimit);
    assert k <= itemsLimit;
    var count := |Split(rest, itemsLimit, lengthLimit)|;
    assert |Split(items, itemsLimit, lengthLimit)| == 1 + count;
    assert (1 + count) * itemsLimit == itemsLimit + count * itemsLimit;
    if rest != [] {
      SplitCount(rest, itemsLimit, lengthLimit);
      if LengthNeverBinds(items, itemsLimit, lengthLimit) {
        NeverBindsSuffix(items, k, itemsLimit, lengthLimit);
        FullChunk(items, itemsLimit, lengthLimit);
        assert count * itemsLimit == itemsLimit + (count - 1) * itemsLimit;
      }
    }
  }

  lemma NeverBindsSuffix(items: seq<string>, k: nat, itemsLimit: int, lengthLimit: int)
    requires k <= |items| && LengthNeverBinds(items, itemsLimit, lengthLimit)
    ensures LengthNeverBinds(items[k..], itemsLimit, lengthLimit)
  {
    var rest := items[k..];
    forall i, j | 0 <= i <= j <= |rest| && j - i <= itemsLimit
      ensures Fits(rest[i..j], itemsLimit, lengthLimit)
    {
      assert rest[i..j] == items[k + i..k + j];
    }
  }

  lemma FullChunk(items: seq<string>, itemsLimit: int, lengthLimit: int)
    requires itemsLimit > 0 && items != [] && LengthNeverBinds(items, itemsLimit, lengthLimit)
    ensures FirstChunk(items, itemsLimit, lengthLimit) == Min(itemsLimit, |items|)
  {
    var m := Min(itemsLimit, |items|);
    FirstChunkIsLegalAndMaximal(items, itemsLimit, lengthLimit);
    assert items[0..m] == items[..m];
    assert LegalChunk(items[..m], itemsLimit, lengthLimit);
  }

  // ---------- fan-in does not depend on the chunking ----------

  /** For an arbitrary fetch, the last chunk that answers a key decides its value. */
  lemma {:induction false} LastChunkWins<T>(maps: seq<map<string, T>>, k: string)
    ensures k in Merge(maps) <==> exists i :: 0 <= i < |maps| && k in maps[i]
    ensures forall i :: 0 <= i < |maps| && k in maps[i] && (forall j :: i < j < |maps| ==> k !in maps[j])
                        ==> Merge(maps)[k] == maps[i][k]
  {
    if maps != [] {
      var n := |maps| - 1;
      LastChunkWins(maps[..n], k);
      assert maps == maps[..n] + [maps[n]];
      if k in Merge(maps[..n]) {
        var i :| 0 <= i < n && k in maps[..n][i];
        assert k in maps[i];
      }
      forall i | 0 <= i < |maps| && k in maps[i] && (forall j :: i < j < |maps| ==> k !in maps[j])
        ensures Merge(maps)[k] == maps[i][k]
      {
        if i < n {
          assert maps[..n][i] == maps[i];
        }
      }
    }
  }

  /** The map a fetch with a value function g answers for a list of ids. */
  function Restrict<T>(g: string -> Option<T>, ids: seq<string>): map<string, T> {
    map id | id in ids && g(id).Some? :: g(id).value
  }

  lemma {:induction false} MergeRestrict<T>(g: string -> Option<T>, chunks: seq<seq<string>>, maps: seq<map<string, T>>)
    requires |maps| == |chunks|
    requires forall i :: 0 <= i < |chunks| ==> maps[i] == Restrict(g, chunks[i])
    ensures Merge(maps) == Restrict(g, Flatten(chunks))
  {
    if chunks != [] {
      var n := |chunks| - 1;
      MergeRestrict(g, chunks[..n], maps[..n]);
      assert chunks == chunks[..n] + [chunks[n]];
      FlattenAppend(chunks[..n], chunks[n]);
    }
  }

  /** A pointwise fetch answers the same map however the list was cut. */
  lemma MapFanInIgnoresChunking<T>(items: seq<string>, itemsLimit: int, lengthLimit: int,
                                   fetch: (nat, seq<string>) -> Result<map<string, T>, string>,
                                   g: string -> Option<T>)
    requires itemsLimit > 0
    requires forall i: nat, chunk :: fetch(i, chunk) == Ok(Restrict(g, chunk))
    ensures AllOk(Split(items, itemsLimit, lengthLimit), fetch)
    ensures Merge(Values(Split(items, itemsLimit, lengthLimit), fetch)) == Restrict(g, items)
  {
    var chunks := Split(items, itemsLimit, lengthLimit);
    SplitIsMaximalPartition(items, itemsLimit, lengthLimit);
    assert AllOk(chunks, fetch);
    MergeRestrict(g, chunks, Values(chunks, fetch));
  }

  lemma {:induction false} FlattenMap<T>(f: string -> T, chunks: seq<seq<string>>, parts: seq<seq<T>>)
    requires |parts| == |chunks|
    requires forall i :: 0 <= i < |chunks| ==> parts[i] == Map(f, chunks[i])
    ensures Flatten(parts) == Map(f, Flatten(chunks))
  {
    if chunks != [] {
      FlattenMap(f, chunks[1..], parts[1..]);
      MapConcat(f, chunks[0], Flatten(chunks[1..]));
    }
  }

  /** A pointwise fetch answers the image of the list, in order, however the list was cut. */
  lemma ArrayFanInIgnoresChunking<T>(items: seq<string>, itemsLimit: int, lengthLimit: int,
                                     fetch: (nat, seq<string>) -> Result<seq<T>, string>,
                                     f: string -> T)
    requires itemsLimit > 0
    requires forall i: nat, chunk :: fetch(i, chunk) == Ok(Map(f, chunk))
    ensures AllOk(Split(items, itemsLimit, lengthLimit), fetch)
    ensures Flatten(Values(Split(items, itemsLimit, lengthLimit), fetch)) == Map(f, items)
  {
    var chunks := Split(items, itemsLimit, lengthLimit);
    SplitIsMaximalPartition(items, itemsLimit, lengthLimit);
    assert AllOk(chunks, fetch);
    FlattenMap(f, chunks, Values(chunks, fetch));
  }
}
