/**
  Market chart series and the filters applied to them
  (coingecko_market_chart/strip_response_utils.go).  Times are milliseconds
  since 1970; days have 24 hours, as for a process that runs on UTC.
*/
module ChartData {
  import opened Wrappers
  import opened Sequences
  import opened Strings

  const DAY_SECONDS: int := 86_400

  datatype Point = Point(ts: real, value: real)

  /** A field of a chart: a list of points, or something the point filter cannot read. */
  datatype Field = Series(points: seq<Point>) | Other(text: string)

  type Chart = map<string, Field>

  // ---------- windows ----------

  /** An optional inclusive lower and upper bound on the time of a point. */
  datatype Window = Window(lo: Option<int>, hi: Option<int>)
  {
    predicate Contains(p: Point) {
      && (lo.Some? ==> lo.value as real <= p.ts)
      && (hi.Some? ==> p.ts <= hi.value as real)
    }
  }

  function From(cutoff: int): Window {
    Window(Some(cutoff), None)
  }

  function UpTo(t: int): Window {
    Window(None, Some(t))
  }

  function Keep(points: seq<Point>, w: Window): seq<Point> {
    if points == [] then []
    else
      var n := |points| - 1;
      Keep(points[..n], w) + if w.Contains(points[n]) then [points[n]] else []
  }

  function KeepField(f: Field, w: Window): Field {
    if f.Series? then Series(Keep(f.points, w)) else f
  }

  function KeepChart(c: Chart, w: Window): Chart {
    map k | k in c :: KeepField(c[k], w)
  }

  /** Filtering twice keeps what lies in both windows. */
  lemma {:induction false} KeepTwice(points: seq<Point>, v: Window, w: Window, both: Window)
    requires forall p :: p in points ==> (both.Contains(p) <==> v.Contains(p) && w.Contains(p))
    ensures Keep(Keep(points, v), w) == Keep(points, both)
  {
    if points != [] {
      var n := |points| - 1;
      assert points == points[..n] + [points[n]];
      KeepTwice(points[..n], v, w, both);
      var first := Keep(points[..n], v);
      if v.Contains(points[n]) {
        assert (first + [points[n]])[..|first|] == first;
      } else {
        assert first + [] == first;
      }
    }
  }

  lemma {:induction false} KeepSame(points: seq<Point>, v: Window, w: Window)
    ensures Keep(points, v) == Keep(points, w) <==> forall p :: p in points ==> (v.Contains(p) <==> w.Contains(p))
  {
    if points != [] {
      var n := |points| - 1;
      var last := points[n];
      KeepSame(points[..n], v, w);
      KeepMembers(points[..n], v);
      KeepMembers(points[..n], w);
      assert points == points[..n] + [last];
      if v.Contains(last) == w.Contains(last) {
        if Keep(points, v) == Keep(points, w) {
          var a, b := Keep(points[..n], v), Keep(points[..n], w);
          assert Keep(points, v)[..|a|] == a && Keep(points, w)[..|b|] == b;
        }
      } else {
        KeepDiffers(points, v, w);
      }
    }
  }

  lemma {:induction false} KeepMembers(points: seq<Point>, w: Window)
    ensures forall p :: p in Keep(points, w) <==> p in points && w.Contains(p)
  {
    if points != [] {
      var n := |points| - 1;
      KeepMembers(points[..n], w);
      assert points == points[..n] + [points[n]];
    }
  }

  /** The positions of the points that are not older than the cutoff. */
  ghost function Since(points: seq<Point>, cutoff: int): set<nat> {
    set i: nat | i < |points| && points[i].ts >= cutoff as real
  }

  lemma SinceStep(points: seq<Point>, p: Point, cutoff: int)
    ensures Since(points + [p], cutoff) == Since(points, cutoff) + if p.ts >= cutoff as real then {|points|} else {}
  {
    var all := points + [p];
    assert forall i :: 0 <= i < |points| ==> all[i] == points[i];
  }

  lemma KeepStep(points: seq<Point>, p: Point, w: Window)
    ensures Keep(points + [p], w) == Keep(points, w) + if w.Contains(p) then [p] else []
  {
    assert (points + [p])[..|points|] == points;
  }

  lemma KeepGrows(points: seq<Point>, p: Point, cutoff: int)
    requires Selects(points, Keep(points, From(cutoff)), Since(points, cutoff))
    ensures Selects(points + [p], Keep(points + [p], From(cutoff)), Since(points + [p], cutoff))
  {
    SelectsOneMore(points, p, Keep(points, From(cutoff)), Since(points, cutoff), p.ts >= cutoff as real);
    SinceStep(points, p, cutoff);
    KeepStep(points, p, From(cutoff));
  }

  /** Keeping what is not older than a cutoff loses no such point, repeats none, and keeps their order. */
  lemma {:induction false} KeepIsSince(points: seq<Point>, cutoff: int)
    ensures Selects(points, Keep(points, From(cutoff)), Since(points, cutoff))
  {
    if points == [] {
      SelectsNone<Point>();
      assert Since(points, cutoff) == {};
    } else {
      var n := |points| - 1;
      KeepIsSince(points[..n], cutoff);
      KeepGrows(points[..n], points[n], cutoff);
      assert points == points[..n] + [points[n]];
    }
  }

  lemma KeepDiffers(points: seq<Point>, v: Window, w: Window)
    requires points != [] && v.Contains(points[|points| - 1]) != w.Contains(points[|points| - 1])
    ensures Keep(points, v) != Keep(points, w)
  {
    var last := points[|points| - 1];
    KeepMembers(points, v);
    KeepMembers(points, w);
    assert last in points;
    assert (last in Keep(points, v)) != (last in Keep(points, w));
  }

  // ---------- the filters of the source ----------

  /** filterDataPoints: the points from the cutoff on, or at least the last minPoints when asked for. */
  method FilterDataPoints(dataPoints: seq<Point>, cutoff: int, minPoints: int) returns (filtered: seq<Point>)
    ensures minPoints <= 0 || |Keep(dataPoints, From(cutoff))| >= minPoints ==>
              filtered == Keep(dataPoints, From(cutoff))
    ensures minPoints <= 0 ==>
              Selects(dataPoints, filtered, set i: nat | i < |dataPoints| && dataPoints[i].ts >= cutoff as real)
    ensures minPoints > 0 && |Keep(dataPoints, From(cutoff))| < minPoints ==>
              filtered == dataPoints[Max(0, |dataPoints| - minPoints)..]
  {
    KeepIsSince(dataPoints, cutoff);
    if |dataPoints| == 0 {
      return dataPoints;
    }
    filtered := [];
    for i := 0 to |dataPoints|
      invariant filtered == Keep(dataPoints[..i], From(cutoff))
    {
      assert dataPoints[..i + 1][..i] == dataPoints[..i];
      if dataPoints[i].ts >= cutoff as real {
        filtered := filtered + [dataPoints[i]];
      }
    }
    assert dataPoints[..|dataPoints|] == dataPoints;
    if minPoints > 0 && |filtered| < minPoints && |dataPoints| > 0 {
      var start := |dataPoints| - minPoints;
      if start < 0 {
        start := 0;
      }
      filtered := dataPoints[start..];
    }
  }

  /** filterByDays after the day count has been read: cuts every field that is a list of points. */
  method FilterChart(c: Chart, cutoff: int) returns (result: Chart)
    ensures result == KeepChart(c, From(cutoff))
    ensures result.Keys == c.Keys && forall k :: k in c ==> IsCut(c[k], result[k], cutoff)
  {
    result := map[];
    var keys := c.Keys;
    while keys != {}
      invariant keys <= c.Keys
      invariant result.Keys == c.Keys - keys
      invariant forall k :: k in result ==> result[k] == KeepField(c[k], From(cutoff))
      decreases |keys|
    {
      var key :| key in keys;
      if c[key].Series? {
        var filtered := FilterDataPoints(c[key].points, cutoff, 0);
        result := result[key := Series(filtered)];
      } else {
        result := result[key := c[key]];
      }
      keys := keys - {key};
    }
    forall k | k in c
      ensures IsCut(c[k], result[k], cutoff)
    {
      CutIsKept(c[k], cutoff);
    }
  }

  /** A list of points keeps, in order, exactly those not older than the cutoff; any other field is left alone. */
  ghost predicate IsCut(f: Field, r: Field, cutoff: int) {
    match f
    case Series(points) =>
      r.Series? && Selects(points, r.points, set i: nat | i < |points| && points[i].ts >= cutoff as real)
    case Other(_) => r == f
  }

  lemma CutIsKept(f: Field, cutoff: int)
    ensures IsCut(f, KeepField(f, From(cutoff)), cutoff)
  {
    if f.Series? {
      KeepIsSince(f.points, cutoff);
    }
  }

  /** The filter names the field: some stretch between commas or ends trims to it, and it is not empty. */
  ghost predicate NamedIn(dataFilter: string, k: string) {
    k != "" && exists i: nat, j: nat :: Stretch(dataFilter, ',', i, j) && TrimSpace(dataFilter[i..j]) == k
  }

  lemma {:induction false} NamesMember(parts: seq<string>, k: string)
    ensures k in Names(parts) <==> k != "" && exists i :: 0 <= i < |parts| && TrimSpace(parts[i]) == k
  {
    if parts != [] {
      var n := |parts| - 1;
      NamesMember(parts[..n], k);
      assert forall i :: 0 <= i < n ==> parts[..n][i] == parts[i];
    }
  }

  lemma FilterNamesMean(dataFilter: string, k: string)
    ensures k in FilterNames(dataFilter) <==> NamedIn(dataFilter, k)
  {
    var parts := Split(dataFilter, ',');
    NamesMember(parts, k);
    if k in FilterNames(dataFilter) {
      var n :| 0 <= n < |parts| && TrimSpace(parts[n]) == k;
      SplitIsStretches(dataFilter, ',', parts[n]);
      assert IsStretch(dataFilter, ',', parts[n]);
    }
    if NamedIn(dataFilter, k) {
      var i: nat, j: nat :| Stretch(dataFilter, ',', i, j) && TrimSpace(dataFilter[i..j]) == k;
      assert IsStretch(dataFilter, ',', dataFilter[i..j]);
      SplitIsStretches(dataFilter, ',', dataFilter[i..j]);
    }
  }

  /** The non-empty trimmed parts of a comma-separated list. */
  function Names(parts: seq<string>): seq<string> {
    if parts == [] then []
    else
      var n := |parts| - 1;
      Names(parts[..n]) + if TrimSpace(parts[n]) != "" then [TrimSpace(parts[n])] else []
  }

  function FilterNames(dataFilter: string): seq<string> {
    Names(Split(dataFilter, ','))
  }

  function Select(c: Chart, dataFilter: string): Chart {
    if dataFilter == "" then c else map k | k in c && k in FilterNames(dataFilter) :: c[k]
  }

  method FilterByDataKeys(c: Chart, dataFilter: string) returns (result: Chart)
    ensures result == Select(c, dataFilter)
    ensures forall k :: k in result <==> k in c && (dataFilter == "" || NamedIn(dataFilter, k))
    ensures forall k :: k in result ==> result[k] == c[k]
  {
    SelectedAreNamed(c, dataFilter);
    if dataFilter == "" {
      return c;
    }
    var allowed: set<string> := {};
    var parts := Split(dataFilter, ',');
    for i := 0 to |parts|
      invariant forall k :: k in allowed <==> k in Names(parts[..i])
    {
      assert parts[..i + 1][..i] == parts[..i];
      var trimmedKey := TrimSpace(parts[i]);
      if trimmedKey != "" {
        allowed := allowed + {trimmedKey};
      }
    }
    assert parts[..|parts|] == parts;
    result := map k | k in c && k in allowed :: c[k];
  }

  lemma SelectedAreNamed(c: Chart, dataFilter: string)
    ensures forall k :: k in Select(c, dataFilter) <==> k in c && (dataFilter == "" || NamedIn(dataFilter, k))
  {
    forall k: string
      ensures k in Select(c, dataFilter) <==> k in c && (dataFilter == "" || NamedIn(dataFilter, k))
    {
      FilterNamesMean(dataFilter, k);
    }
  }

  /** At a whole second the cutoff lies exactly the given number of 24-hour days back. */
  lemma CutoffMeans(seconds: int, ms: nat, days: int)
    requires ms < 1000
    ensures Cutoff(1000 * seconds + ms, days) == 1000 * seconds - days * 24 * 60 * 60 * 1000
  {
    assert (1000 * seconds + ms) / 1000 == seconds;
  }

  /** Now minus the given number of days, cut to whole seconds. */
  function Cutoff(now: int, days: int): int {
    (now / 1000 - days * DAY_SECONDS) * 1000
  }

  /** StripMarketChartResponse as a value: the data filter, then the day cut of a numeric day count. */
  function Stripped(c: Chart, days: string, dataFilter: string, now: int): Chart {
    var selected := Select(c, dataFilter);
    if days == "max" || Atoi(days).None? then selected
    else KeepChart(selected, From(Cutoff(now, Atoi(days).value)))
  }

  method StripMarketChartResponse(days: string, dataFilter: string, c: Chart, now: int) returns (result: Chart)
    ensures result == Stripped(c, days, dataFilter, now)
    ensures forall k :: k in result <==> k in c && (dataFilter == "" || NamedIn(dataFilter, k))
    ensures days != "max" && Atoi(days).Some? ==>
              forall k :: k in result ==>
                            IsCut(c[k], result[k], (now / 1000 - Atoi(days).value * 24 * 60 * 60) * 1000)
    ensures days == "max" || Atoi(days).None? ==> forall k :: k in result ==> result[k] == c[k]
  {
    SelectedAreNamed(c, dataFilter);
    result := c;
    if dataFilter != "" {
      result := FilterByDataKeys(c, dataFilter);
    }
    if days == "max" {
      return result;
    }
    if days != "" {
      var n := Atoi(days);
      if n.None? {
        return result;
      }
      result := FilterChart(result, Cutoff(now, n.value));
    }
  }
}
