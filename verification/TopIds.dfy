/**
  The lazily rebuilt index of top token ids (coingecko_markets/top_ids.go).

  The specification is TopIdsOf: the pages 1..max in page order, keeping the
  first occurrence of each id.  The class keeps a stale list behind a dirty
  flag; Valid ties the list to the specification whenever the flag is clear.
*/
module TopIds {
  import opened Sequences
  import opened Tokens

  type Pages = map<int, seq<string>>

  // ---------- specification ----------

  /** The ids of the pages 1..n, one page after the other. */
  function ConcatPages(pages: Pages, n: int): seq<string>
    decreases n
  {
    if n <= 0 then [] else ConcatPages(pages, n - 1) + if n in pages then pages[n] else []
  }

  /** The largest page number, or 0 when no page has a positive number. */
  ghost predicate IsHighest(pages: Pages, m: int) {
    && m >= 0
    && (forall p :: p in pages ==> p <= m)
    && (m == 0 || m in pages)
  }

  lemma NonEmpty(keys: set<int>)
    requires keys != {}
    ensures exists p :: p in keys
  {
    if forall p :: p !in keys {
      assert false;
    }
  }

  ghost function HighestOf(keys: set<int>): (m: int)
    ensures m >= 0 && (forall p :: p in keys ==> p <= m) && (m == 0 || m in keys)
  {
    if keys == {} then 0 else
      NonEmpty(keys);
      var p :| p in keys;
      assert forall q :: q in keys ==> q == p || q in keys - {p};
      Max(p, HighestOf(keys - {p}))
  }

  ghost function Highest(pages: Pages): (m: int)
    ensures IsHighest(pages, m)
  {
    HighestOf(pages.Keys)
  }

  ghost function TopIdsOf(pages: Pages): seq<string> {
    Dedup(ConcatPages(pages, Highest(pages)))
  }

  /** The prefix that a limit asks for: everything when the limit is not positive. */
  function Limited(ids: seq<string>, limit: int): (r: seq<string>)
    ensures r <= ids && |r| == if limit <= 0 then |ids| else Min(limit, |ids|)
  {
    if limit <= 0 || limit > |ids| then ids else ids[..limit]
  }

  /** Pages beyond the highest one add nothing. */
  lemma {:induction false} ConcatBeyond(pages: Pages, n: int)
    requires n >= Highest(pages)
    ensures ConcatPages(pages, n) == ConcatPages(pages, Highest(pages))
    decreases n - Highest(pages)
  {
    if n > Highest(pages) {
      ConcatBeyond(pages, n - 1);
    }
  }

  lemma {:induction false} ConcatPrefix(pages: Pages, m: int, n: int)
    requires m <= n
    ensures ConcatPages(pages, m) <= ConcatPages(pages, n)
    decreases n - m
  {
    if m < n {
      ConcatPrefix(pages, m, n - 1);
    }
  }

  lemma {:induction false} ConcatMembers(pages: Pages, n: int, id: string)
    ensures id in ConcatPages(pages, n) <==> exists p :: 1 <= p <= n && p in pages && id in pages[p]
    decreases n
  {
    if n > 0 {
      ConcatMembers(pages, n - 1, id);
    }
  }

  /**
    The index lists every id of a positive page exactly once, in the order in
    which the pages mention it first, and no other list does.
  */
  lemma TopIdsCharacterised(pages: Pages, ids: seq<string>)
    ensures var all := ConcatPages(pages, Highest(pages));
            ids == TopIdsOf(pages) <==>
            && (forall id :: id in ids <==> exists p :: 1 <= p && p in pages && id in pages[p])
            && InFirstOrder(ids, all)
    ensures Distinct(TopIdsOf(pages))
  {
    var h := Highest(pages);
    var all := ConcatPages(pages, h);
    DedupDistinct(all);
    DedupInFirstOrder(all);
    forall id
      ensures id in all <==> exists p :: 1 <= p && p in pages && id in pages[p]
    {
      ConcatMembers(pages, h, id);
    }
    if (forall id :: id in ids <==> exists p :: 1 <= p && p in pages && id in pages[p]) && InFirstOrder(ids, all) {
      DedupUnique(all, ids);
    }
  }

  // ---------- operations ----------

  datatype Op =
    | UpdatePage(page: int, ids: seq<string>)
    | UpdatePages(data: seq<PageData>)
    | Read(limit: int)
    | ReadPage(page: int)
    | Clear

  function WithPages(pages: Pages, data: seq<PageData>): Pages
    decreases |data|
  {
    if data == [] then pages
    else
      var last := data[|data| - 1];
      WithPages(pages, data[..|data| - 1])[last.page := ExtractIds(last.data)]
  }

  function After(pages: Pages, op: Op): Pages {
    match op
    case UpdatePage(page, ids) => pages[page := ids]
    case UpdatePages(data) => WithPages(pages, data)
    case Read(_) => pages
    case ReadPage(_) => pages
    case Clear => map[]
  }

  function AfterAll(pages: Pages, ops: seq<Op>): Pages
    decreases |ops|
  {
    if ops == [] then pages else AfterAll(After(pages, ops[0]), ops[1..])
  }

  /** What an operation must answer: the index up to the limit, the ids of one page, or nothing. */
  ghost function AnswerTo(pages: Pages, op: Op): seq<seq<string>> {
    match op
    case Read(limit) => [Limited(TopIdsOf(pages), limit)]
    case ReadPage(page) => [if page in pages then pages[page] else []]
    case _ => []
  }

  /** What the reads of a run must answer. */
  ghost function Answers(pages: Pages, ops: seq<Op>): seq<seq<string>>
    decreases |ops|
  {
    if ops == [] then []
    else
      AnswerTo(pages, ops[0]) + Answers(After(pages, ops[0]), ops[1..])
  }

  class TopIdsManager {
    var pageToIds: Pages
    var topIds: seq<string>
    var dirty: bool

    /** A clear flag means that the stored list is the specified one. */
    ghost predicate Valid()
      reads this
    {
      !dirty ==> topIds == TopIdsOf(pageToIds)
    }

    constructor ()
      ensures Valid() && pageToIds == map[]
    {
      pageToIds := map[];
      topIds := [];
      dirty := false;
      new;
      EmptyIndex();
    }

    method UpdatePageIds(page: int, tokenIds: seq<string>)
      requires Valid()
      modifies this
      ensures Valid() && pageToIds == old(pageToIds)[page := tokenIds]
    {
      pageToIds := pageToIds[page := tokenIds];
      dirty := true;
    }

    method UpdatePagesFromPageData(pagesData: seq<PageData>)
      requires Valid()
      modifies this
      ensures Valid() && pageToIds == WithPages(old(pageToIds), pagesData)
    {
      for i := 0 to |pagesData|
        invariant pageToIds == WithPages(old(pageToIds), pagesData[..i])
      {
        assert pagesData[..i + 1][..i] == pagesData[..i];
        var tokenIds := ExtractTokenIDs(pagesData[i].data);
        pageToIds := pageToIds[pagesData[i].page := tokenIds];
      }
      assert pagesData[..|pagesData|] == pagesData;
      dirty := true;
    }

    method GetTopIds(limit: int) returns (result: seq<string>)
      requires Valid()
      modifies this
      ensures Valid() && pageToIds == old(pageToIds)
      ensures result == Limited(TopIdsOf(pageToIds), limit)
      ensures result <= TopIdsOf(pageToIds)
      ensures |result| == if limit <= 0 then |TopIdsOf(pageToIds)| else Min(limit, |TopIdsOf(pageToIds)|)
    {
      if dirty {
        RebuildTopIds();
        dirty := false;
      }
      if limit <= 0 || limit > |topIds| {
        return topIds;
      }
      return topIds[..limit];
    }

    /** The highest page number, found by ranging over the map in any order. */
    method MaxPage() returns (maxPage: int)
      ensures IsHighest(pageToIds, maxPage)
    {
      maxPage := 0;
      var keys := pageToIds.Keys;
      while keys != {}
        invariant keys <= pageToIds.Keys
        invariant maxPage >= 0 && (maxPage == 0 || maxPage in pageToIds)
        invariant forall p :: p in pageToIds && p !in keys ==> p <= maxPage
        decreases |keys|
      {
        NonEmpty(keys);
        var page :| page in keys;
        if page > maxPage {
          maxPage := page;
        }
        keys := keys - {page};
      }
    }

    method RebuildTopIds()
      modifies this`topIds
      ensures topIds == TopIdsOf(pageToIds)
    {
      if |pageToIds| == 0 {
        topIds := [];
        EmptyIndex();
        return;
      }
      var maxPage := MaxPage();
      var seenIds: map<string, int> := map[];
      var newTopIds: seq<string> := [];
      ghost var done: seq<string> := [];
      var page := 1;
      while page <= maxPage
        invariant 1 <= page <= maxPage + 1
        invariant done == ConcatPages(pageToIds, page - 1)
        invariant newTopIds == Dedup(done)
        invariant forall id :: id in seenIds <==> id in newTopIds
      {
        if page in pageToIds {
          newTopIds, seenIds := AppendNew(done, newTopIds, seenIds, page, pageToIds[page]);
          done := done + pageToIds[page];
        } else {
          assert done + [] == done;
        }
        page := page + 1;
      }
      topIds := newTopIds;
    }

    method Clear()
      modifies this
      ensures Valid() && pageToIds == map[]
    {
      pageToIds := map[];
      topIds := [];
      dirty := false;
      EmptyIndex();
    }

    method GetPageIds(page: int) returns (result: seq<string>)
      ensures result == if page in pageToIds then pageToIds[page] else []
    {
      if page !in pageToIds {
        return [];
      }
      return pageToIds[page];
    }

    method Perform(op: Op) returns (answer: seq<seq<string>>)
      requires Valid()
      modifies this
      ensures Valid() && pageToIds == After(old(pageToIds), op)
      ensures answer == AnswerTo(old(pageToIds), op)
    {
      answer := [];
      match op {
        case UpdatePage(page, ids) => UpdatePageIds(page, ids);
        case UpdatePages(data) => UpdatePagesFromPageData(data);
        case Read(limit) =>
          var ids := GetTopIds(limit);
          answer := [ids];
        case ReadPage(page) =>
          var ids := GetPageIds(page);
          answer := [ids];
        case Clear => Clear();
      }
    }

    /** Performs a whole run of operations; every read is answered from the specification. */
    method Replay(ops: seq<Op>) returns (answers: seq<seq<string>>)
      requires Valid()
      modifies this
      ensures Valid() && pageToIds == AfterAll(old(pageToIds), ops)
      ensures answers == Answers(old(pageToIds), ops)
    {
      answers := [];
      ghost var start := pageToIds;
      for i := 0 to |ops|
        invariant Valid()
        invariant AfterAll(start, ops) == AfterAll(pageToIds, ops[i..])
        invariant Answers(start, ops) == answers + Answers(pageToIds, ops[i..])
      {
        RunStep(pageToIds, ops, i);
        var answer := Perform(ops[i]);
        answers := answers + answer;
      }
    }
  }

  lemma EmptyIndex()
    ensures TopIdsOf(map[]) == []
  {
    assert Highest(map[]) == 0;
  }

  /** The inner loop of the rebuild: ids of one page that were not seen before. */
  method AppendNew(ghost done: seq<string>, top: seq<string>, seen: map<string, int>, page: int, ids: seq<string>)
    returns (newTop: seq<string>, newSeen: map<string, int>)
    requires top == Dedup(done) && forall id :: id in seen <==> id in top
    ensures newTop == Dedup(done + ids) && forall id :: id in newSeen <==> id in newTop
  {
    newTop, newSeen := top, seen;
    assert done + ids[..0] == done;
    for i := 0 to |ids|
      invariant newTop == Dedup(done + ids[..i])
      invariant forall id :: id in newSeen <==> id in newTop
    {
      var s := done + ids[..i + 1];
      assert s[..|s| - 1] == done + ids[..i];
      assert s[|s| - 1] == ids[i];
      if ids[i] !in newSeen {
        newSeen := newSeen[ids[i] := page];
        newTop := newTop + [ids[i]];
      }
    }
    assert ids[..|ids|] == ids;
  }

  // ---------- runs ----------

  lemma RunStep(pages: Pages, ops: seq<Op>, i: nat)
    requires i < |ops|
    ensures AfterAll(pages, ops[i..]) == AfterAll(After(pages, ops[i]), ops[i + 1..])
    ensures Answers(pages, ops[i..])
         == AnswerTo(pages, ops[i]) + Answers(After(pages, ops[i]), ops[i + 1..])
  {
    assert ops[i..][1..] == ops[i + 1..];
  }

  /** The last update of page p in a run that no later Clear wipes out. */
  function LastUpdate(ops: seq<Op>, p: int): (i: int)
    ensures -1 <= i < |ops|
  {
    if ops == [] then -1
    else
      var n := |ops| - 1;
      match ops[n]
      case Clear => -1
      case UpdatePage(page, _) => if page == p then n else LastUpdate(ops[..n], p)
      case UpdatePages(data) => if LastPage(data, p) >= 0 then n else LastUpdate(ops[..n], p)
      case Read(_) => LastUpdate(ops[..n], p)
      case ReadPage(_) => LastUpdate(ops[..n], p)
  }

  /** The last entry for page p in one batch of pages. */
  function LastPage(data: seq<PageData>, p: int): (i: int)
    ensures -1 <= i < |data|
    ensures i >= 0 ==> data[i].page == p
    ensures forall k :: i < k < |data| ==> data[k].page != p
  {
    if data == [] then -1
    else if data[|data| - 1].page == p then |data| - 1
    else LastPage(data[..|data| - 1], p)
  }

  lemma {:induction false} WithPagesAt(pages: Pages, data: seq<PageData>, p: int)
    ensures var i := LastPage(data, p);
            var r := WithPages(pages, data);
            if i >= 0 then p in r && r[p] == ExtractIds(data[i].data)
            else (p in r <==> p in pages) && (p in pages ==> r[p] == pages[p])
  {
    if data != [] {
      WithPagesAt(pages, data[..|data| - 1], p);
    }
  }

  lemma {:induction false} AfterAllLast(pages: Pages, ops: seq<Op>)
    requires ops != []
    ensures AfterAll(pages, ops) == After(AfterAll(pages, ops[..|ops| - 1]), ops[|ops| - 1])
    decreases |ops|
  {
    if |ops| == 1 {
      assert ops[1..] == [] && ops[..0] == [];
    } else {
      AfterAllLast(After(pages, ops[0]), ops[1..]);
      assert ops[1..][..|ops| - 2] == ops[..|ops| - 1][1..];
    }
  }

  /** The ids that an update op gives page p. */
  function IdsGiven(op: Op, p: int): seq<string> {
    match op
    case UpdatePage(_, ids) => ids
    case UpdatePages(data) => if LastPage(data, p) >= 0 then ExtractIds(data[LastPage(data, p)].data) else []
    case Read(_) => []
    case ReadPage(_) => []
    case Clear => []
  }

  /** After any run from the empty index, each page holds what its last surviving update gave it. */
  lemma {:induction false} LastUpdateWins(ops: seq<Op>, p: int)
    ensures var pages := AfterAll(map[], ops);
            var i := LastUpdate(ops, p);
            (p in pages <==> i >= 0) && (i >= 0 ==> pages[p] == IdsGiven(ops[i], p))
  {
    if ops != [] {
      var n := |ops| - 1;
      AfterAllLast(map[], ops);
      LastUpdateWins(ops[..n], p);
      if ops[n].UpdatePages? {
        WithPagesAt(AfterAll(map[], ops[..n]), ops[n].data, p);
      }
    }
  }

  lemma {:induction false} RunConcat(pages: Pages, a: seq<Op>, b: seq<Op>)
    ensures AfterAll(pages, a + b) == AfterAll(AfterAll(pages, a), b)
    decreases |a|
  {
    if a == [] {
      assert a + b == b;
    } else {
      assert (a + b)[1..] == a[1..] + b;
      RunConcat(After(pages, a[0]), a[1..], b);
    }
  }

  lemma {:induction false} AnswersConcat(pages: Pages, a: seq<Op>, b: seq<Op>)
    ensures Answers(pages, a + b) == Answers(pages, a) + Answers(AfterAll(pages, a), b)
    decreases |a|
  {
    if a == [] {
      assert a + b == b;
    } else {
      var next := After(pages, a[0]);
      assert (a + b)[1..] == a[1..] + b;
      AnswersConcat(next, a[1..], b);
      var first, mid, last := AnswerTo(pages, a[0]), Answers(next, a[1..]), Answers(AfterAll(next, a[1..]), b);
      assert first + (mid + last) == (first + mid) + last;
    }
  }

  /** The pages a batch or a single update writes. */
  function Written(op: Op): set<int> {
    match op
    case UpdatePage(page, _) => {page}
    case UpdatePages(data) => set i | 0 <= i < |data| :: data[i].page
    case Read(_) => {}
    case ReadPage(_) => {}
    case Clear => {}
  }

  lemma UpdateAt(pages: Pages, op: Op, p: int)
    requires op.UpdatePage? || op.UpdatePages?
    ensures var r := After(pages, op);
            if p in Written(op) then p in r && r[p] == IdsGiven(op, p)
            else (p in r <==> p in pages) && (p in pages ==> r[p] == pages[p])
  {
    if op.UpdatePages? {
      WithPagesAt(pages, op.data, p);
      LastPageFound(op.data, p);
    }
  }

  lemma {:induction false} LastPageFound(data: seq<PageData>, p: int)
    ensures LastPage(data, p) >= 0 <==> exists i :: 0 <= i < |data| && data[i].page == p
  {
    if data != [] {
      var n := |data| - 1;
      LastPageFound(data[..n], p);
      if exists i :: 0 <= i < |data| && data[i].page == p {
        var i :| 0 <= i < |data| && data[i].page == p;
        if i < n {
          assert data[..n][i].page == p;
        }
      }
    }
  }

  lemma UpdatesCommute(pages: Pages, a: Op, b: Op)
    requires a.UpdatePage? || a.UpdatePages?
    requires b.UpdatePage? || b.UpdatePages?
    requires Written(a) !! Written(b)
    ensures After(After(pages, a), b) == After(After(pages, b), a)
  {
    var ab, ba := After(After(pages, a), b), After(After(pages, b), a);
    forall p
      ensures (p in ab <==> p in ba) && (p in ab ==> ab[p] == ba[p])
    {
      UpdateAt(pages, a, p);
      UpdateAt(After(pages, a), b, p);
      UpdateAt(pages, b, p);
      UpdateAt(After(pages, b), a, p);
    }
  }

  /** Exchanging neighbouring updates of different pages changes no answer of the run. */
  lemma UpdateOrderIrrelevant(pages: Pages, before: seq<Op>, a: Op, b: Op, rest: seq<Op>)
    requires a.UpdatePage? || a.UpdatePages?
    requires b.UpdatePage? || b.UpdatePages?
    requires Written(a) !! Written(b)
    ensures Answers(pages, before + [a, b] + rest) == Answers(pages, before + [b, a] + rest)
    ensures AfterAll(pages, before + [a, b] + rest) == AfterAll(pages, before + [b, a] + rest)
  {
    UpdatesCommute(AfterAll(pages, before), a, b);
    PairWithin(pages, before, a, b, rest);
    PairWithin(pages, before, b, a, rest);
  }

  lemma PairWithin(pages: Pages, before: seq<Op>, x: Op, y: Op, rest: seq<Op>)
    requires !x.Read? && !x.ReadPage? && !y.Read? && !y.ReadPage?
    ensures var after := After(After(AfterAll(pages, before), x), y);
            && AfterAll(pages, before + [x, y] + rest) == AfterAll(after, rest)
            && Answers(pages, before + [x, y] + rest) == Answers(pages, before) + Answers(after, rest)
  {
    var tail := [x, y] + rest;
    assert before + [x, y] + rest == before + tail;
    RunConcat(pages, before, tail);
    AnswersConcat(pages, before, tail);
    PairRun(AfterAll(pages, before), x, y, rest);
  }

  lemma PairRun(pages: Pages, x: Op, y: Op, rest: seq<Op>)
    requires !x.Read? && !x.ReadPage? && !y.Read? && !y.ReadPage?
    ensures AfterAll(pages, [x, y] + rest) == AfterAll(After(After(pages, x), y), rest)
    ensures Answers(pages, [x, y] + rest) == Answers(After(After(pages, x), y), rest)
  {
    var ops := [x, y] + rest;
    assert ops[1..] == [y] + rest;
    assert ops[1..][1..] == rest;
    assert AfterAll(pages, ops) == AfterAll(After(pages, x), ops[1..]);
    assert Answers(pages, ops) == Answers(After(pages, x), ops[1..]);
  }
}
