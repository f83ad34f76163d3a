/**
  The key strings under which the services share one cache
  (coingecko_markets/utils.go, coingecko_prices/service.go,
  coingecko_market_chart/service.go, config/fetcher_by_id_config.go).
*/
module CacheKeys {
  import opened Strings

  function TokenKey(id: string): string {
    "markets:" + id
  }

  function PageKey(page: int): string {
    "markets_page:" + Itoa(page)
  }

  function PageIdsKey(page: int): string {
    "markets_page_ids:" + Itoa(page)
  }

  function PriceKey(id: string): string {
    "price:id:" + id
  }

  /** A by-id fetcher prefixes its keys with its own configured name. */
  function ByIdKey(name: string, id: string): string {
    name + ":id:" + id
  }

  function ChartKey(id: string, currency: string, days: string, interval: string): string {
    "market_chart:" + id + ":" + currency + ":days:" + days
    + if interval != "" then ":interval:" + interval else ""
  }

  /** extractTokenIDFromKey */
  function TokenOfKey(key: string): string {
    if HasPrefix(key, "markets:") then key[|"markets:"|..] else ""
  }

  // ---------- which family a key belongs to ----------

  datatype Family = Tokens | Pages | PageIds | Prices | Charts

  function FirstSegment(f: Family): (s: string)
    ensures NoColon(s) && s != ""
  {
    match f
    case Tokens => "markets"
    case Pages => "markets_page"
    case PageIds => "markets_page_ids"
    case Prices => "price"
    case Charts => "market_chart"
  }

  /** The keys of a family; the chart family takes any four strings. */
  ghost predicate InFamily(key: string, f: Family) {
    match f
    case Tokens => exists id :: key == TokenKey(id)
    case Pages => exists n :: key == PageKey(n)
    case PageIds => exists n :: key == PageIdsKey(n)
    case Prices => exists id :: key == PriceKey(id)
    case Charts => exists id, currency, days, interval :: key == ChartKey(id, currency, days, interval)
  }

  lemma ChartPrefix(id: string, currency: string, days: string, interval: string) returns (rest: string)
    ensures ChartKey(id, currency, days, interval) == "market_chart" + ":" + rest
  {
    var key := ChartKey(id, currency, days, interval);
    assert key[..|"market_chart:"|] == "market_chart" + ":";
    rest := key[|"market_chart:"|..];
  }

  lemma PricePrefix(id: string)
    ensures PriceKey(id) == "price" + ":" + ("id:" + id)
  {
  }

  lemma PagePrefix(n: int)
    ensures PageKey(n) == "markets_page" + ":" + Itoa(n)
    ensures PageIdsKey(n) == "markets_page_ids" + ":" + Itoa(n)
  {
  }

  /** A key begins with its family's segment and a colon; page keys end in the page number. */
  lemma FamilySegment(key: string, f: Family) returns (rest: string)
    requires InFamily(key, f)
    ensures key == FirstSegment(f) + ":" + rest
    ensures f.Pages? || f.PageIds? ==> NoColon(rest)
  {
    match f {
      case Tokens => rest :| key == TokenKey(rest);
      case Pages =>
        var n :| key == PageKey(n);
        PagePrefix(n);
        rest := Itoa(n);
      case PageIds =>
        var n :| key == PageIdsKey(n);
        PagePrefix(n);
        rest := Itoa(n);
      case Prices =>
        var id :| key == PriceKey(id);
        PricePrefix(id);
        rest := "id:" + id;
      case Charts =>
        var id, currency, days, interval :| key == ChartKey(id, currency, days, interval);
        rest := ChartPrefix(id, currency, days, interval);
    }
  }

  /** No key belongs to two of the fixed families. */
  lemma FamiliesDisjoint(key: string, f: Family, g: Family)
    requires InFamily(key, f) && InFamily(key, g)
    ensures f == g
  {
    var r := FamilySegment(key, f);
    var s := FamilySegment(key, g);
    FirstColonSplit(FirstSegment(f), r, FirstSegment(g), s);
  }

  // ---------- injectivity within the families ----------

  lemma TokenKeyInjective(id1: string, id2: string)
    ensures TokenKey(id1) == TokenKey(id2) ==> id1 == id2
    ensures TokenOfKey(TokenKey(id1)) == id1
  {
    assert TokenKey(id1)[|"markets:"|..] == id1;
    assert TokenKey(id2)[|"markets:"|..] == id2;
  }

  lemma PageKeyInjective(m: int, n: int)
    ensures PageKey(m) == PageKey(n) ==> m == n
    ensures PageIdsKey(m) == PageIdsKey(n) ==> m == n
  {
    if PageKey(m) == PageKey(n) {
      assert PageKey(m)[|"markets_page:"|..] == Itoa(m);
      assert PageKey(n)[|"markets_page:"|..] == Itoa(n);
      ItoaInjective(m, n);
    }
    if PageIdsKey(m) == PageIdsKey(n) {
      assert PageIdsKey(m)[|"markets_page_ids:"|..] == Itoa(m);
      assert PageIdsKey(n)[|"markets_page_ids:"|..] == Itoa(n);
      ItoaInjective(m, n);
    }
  }

  lemma PriceKeyInjective(id1: string, id2: string)
    ensures PriceKey(id1) == PriceKey(id2) ==> id1 == id2
  {
    assert PriceKey(id1)[|"price:id:"|..] == id1;
    assert PriceKey(id2)[|"price:id:"|..] == id2;
  }

  // ---------- by-id fetchers ----------

  /** One fetcher's keys separate its ids, whatever its name. */
  lemma ByIdKeyInjective(name: string, id1: string, id2: string)
    requires ByIdKey(name, id1) == ByIdKey(name, id2)
    ensures id1 == id2
  {
    var stem := name + ":id:";
    assert ByIdKey(name, id1)[|stem|..] == id1 && ByIdKey(name, id2)[|stem|..] == id2;
  }

  /** Two different names of which some ids make the same key. */
  ghost predicate NamesCollide(name1: string, name2: string) {
    exists id1, id2 :: ByIdKey(name1, id1) == ByIdKey(name2, id2)
  }

  /** The key of the second fetcher can begin with the name and the separator of the first. */
  predicate Within(name1: string, name2: string) {
    name1 + ":id:" <= name2 + ":"
  }

  lemma WithinCollides(name1: string, name2: string)
    requires Within(name1, name2)
    ensures NamesCollide(name1, name2)
  {
    var id1 := (name2 + ":id:")[|name1 + ":id:"|..];
    assert ByIdKey(name2, "") == name2 + ":id:";
    assert (name2 + ":")[..|name1 + ":id:"|] == (name2 + ":id:")[..|name1 + ":id:"|];
    assert ByIdKey(name1, id1) == ByIdKey(name2, "");
  }

  lemma ShorterName(name1: string, id1: string, name2: string, id2: string)
    requires ByIdKey(name1, id1) == ByIdKey(name2, id2) && |name1| < |name2|
    ensures Within(name1, name2)
  {
    var key := ByIdKey(name1, id1);
    var n := |name1|;
    assert key == name2 + ":id:" + id2;
    assert key[n] == ':' && key[n + 1] == 'i' && key[n + 2] == 'd' && key[n + 3] == ':';
    var m := |name2|;
    assert key[m] == ':' && key[m + 1] == 'i' && key[m + 2] == 'd' && key[m + 3] == ':';
    assert n + 3 <= m;
    assert (name1 + ":id:") == key[..n + 4] && (name2 + ":") == key[..m + 1];
    assert key[..m + 1][..n + 4] == key[..n + 4];
  }

  /** Two fetchers can share a key exactly when their names agree or one name continues the other's separator. */
  lemma NamesCollideExactly(name1: string, name2: string)
    ensures NamesCollide(name1, name2) <==> name1 == name2 || Within(name1, name2) || Within(name2, name1)
  {
    if name1 == name2 {
      assert ByIdKey(name1, "") == ByIdKey(name2, "");
    }
    if Within(name1, name2) {
      WithinCollides(name1, name2);
    }
    if Within(name2, name1) {
      WithinCollides(name2, name1);
      var id2, id1 :| ByIdKey(name2, id2) == ByIdKey(name1, id1);
      assert ByIdKey(name1, id1) == ByIdKey(name2, id2);
    }
    if NamesCollide(name1, name2) {
      var id1, id2 :| ByIdKey(name1, id1) == ByIdKey(name2, id2);
      if |name1| < |name2| {
        ShorterName(name1, id1, name2, id2);
      } else if |name2| < |name1| {
        ShorterName(name2, id2, name1, id1);
      } else {
        assert name1 == ByIdKey(name1, id1)[..|name1|] == name2;
      }
    }
  }

  /** Some id makes the fetcher's key a key of the family. */
  ghost predicate Collides(name: string, f: Family) {
    exists id :: InFamily(ByIdKey(name, id), f)
  }

  /** A key with this beginning exists among the fetcher's keys exactly when the name itself reaches it. */
  lemma KeyBegins(name: string, id: string, segment: string)
    requires NoColon(segment)
    ensures segment + ":" <= ByIdKey(name, id) <==> segment + ":" <= name + ":"
  {
    var key := ByIdKey(name, id);
    var n := |segment|;
    assert key[..|name| + 1] == name + ":";
    if segment + ":" <= key {
      assert key[..n + 1] == segment + ":";
      assert forall k :: 0 <= k < n ==> key[k] == segment[k];
      assert n <= |name| by {
        assert key[|name|] == ':';
      }
      assert (name + ":")[..n + 1] == key[..n + 1];
    }
    if segment + ":" <= name + ":" {
      assert key[..n + 1] == (name + ":")[..n + 1];
    }
  }

  /** A fetcher reaches the token keys exactly when its name begins their prefix. */
  lemma CollidesWithTokens(name: string)
    ensures Collides(name, Tokens) <==> "markets:" <= name + ":"
  {
    if Collides(name, Tokens) {
      var id :| InFamily(ByIdKey(name, id), Tokens);
      KeyBegins(name, id, "markets");
    }
    if "markets:" <= name + ":" {
      KeyBegins(name, "", "markets");
      var key := ByIdKey(name, "");
      assert key == TokenKey(key[|"markets:"|..]);
      assert InFamily(key, Tokens);
    }
  }

  /** Page keys end in a number, and no fetcher reaches them. */
  lemma PagesAreSafe(name: string)
    ensures !Collides(name, Pages) && !Collides(name, PageIds)
  {
    forall id, f: Family | f.Pages? || f.PageIds?
      ensures !InFamily(ByIdKey(name, id), f)
    {
      if InFamily(ByIdKey(name, id), f) {
        var rest := FamilySegment(ByIdKey(name, id), f);
        ByIdHasTwoColons(name, id, FirstSegment(f), rest);
      }
    }
  }

  lemma ByIdHasTwoColons(name: string, id: string, segment: string, rest: string)
    requires NoColon(segment) && NoColon(rest)
    ensures ByIdKey(name, id) != segment + ":" + rest
  {
    var key, other := ByIdKey(name, id), segment + ":" + rest;
    assert key[|name|] == ':' && key[|name| + 3] == ':';
    assert forall k :: 0 <= k < |other| && k != |segment| ==> other[k] != ':';
  }

  lemma NothingWithinPrice(name: string)
    ensures !Within(name, "price")
  {
    var s := name + ":id:";
    assert s[|name|] == ':' && s[|name| + 3] == ':';
    assert forall k :: 0 <= k < |"price"| ==> "price:"[k] != ':';
  }

  /** A fetcher reaches the price keys exactly when it is called price or its name begins their prefix. */
  lemma CollidesWithPrices(name: string)
    ensures Collides(name, Prices) <==> name == "price" || "price:id:" <= name + ":"
  {
    if Collides(name, Prices) {
      var id :| InFamily(ByIdKey(name, id), Prices);
      var x :| ByIdKey(name, id) == PriceKey(x);
      assert PriceKey(x) == ByIdKey("price", x);
      assert ByIdKey("price", x) == ByIdKey(name, id);
      NamesCollideExactly("price", name);
      NothingWithinPrice(name);
    }
    if name == "price" {
      assert ByIdKey(name, "") == PriceKey("");
      assert InFamily(ByIdKey(name, ""), Prices);
    }
    if "price:id:" <= name + ":" {
      WithinCollides("price", name);
      var x, id :| ByIdKey("price", x) == ByIdKey(name, id);
      assert ByIdKey(name, id) == PriceKey(x);
      assert InFamily(ByIdKey(name, id), Prices);
    }
  }

  /** A fetcher reaches the chart keys exactly when its name begins their prefix. */
  lemma CollidesWithCharts(name: string)
    ensures Collides(name, Charts) <==> "market_chart:" <= name + ":"
  {
    if Collides(name, Charts) {
      var id :| InFamily(ByIdKey(name, id), Charts);
      var rest := FamilySegment(ByIdKey(name, id), Charts);
      KeyBegins(name, id, "market_chart");
    }
    if "market_chart:" <= name + ":" {
      ReachesCharts(name);
    }
  }

  lemma ReachesCharts(name: string)
    requires "market_chart:" <= name + ":"
    ensures Collides(name, Charts)
  {
    var id := "x:days:1";
    var key := ByIdKey(name, id);
    var n := |"market_chart"|;
    assert (name + ":")[..n + 1] == "market_chart:";
    assert name[..n] == (name + ":")[..n];
    if |name| == n {
      assert key == ChartKey("id", "x", "1", "");
    } else {
      assert name[..n + 1] == (name + ":")[..n + 1];
      assert name == "market_chart:" + name[|"market_chart:"|..];
      var rest := name[|"market_chart:"|..] + ":id";
      assert key == ChartKey(rest, "x", "1", "") by {
        assert name + ":id:" == "market_chart:" + rest + ":";
      }
    }
    assert InFamily(key, Charts);
  }

  /** The same for a fetcher whose name has no colon: only three names are dangerous. */
  lemma ColonFreeNames(name: string, f: Family)
    requires NoColon(name)
    ensures Collides(name, f) <==>
            (f.Tokens? && name == "markets") || (f.Prices? && name == "price") || (f.Charts? && name == "market_chart")
  {
    match f {
      case Tokens =>
        CollidesWithTokens(name);
        PlainPrefix(name, "markets");
      case Pages => PagesAreSafe(name);
      case PageIds => PagesAreSafe(name);
      case Prices =>
        CollidesWithPrices(name);
        assert "price:id:"[5] == ':';
        assert forall k :: 0 <= k < |name| ==> (name + ":")[k] != ':';
      case Charts =>
        CollidesWithCharts(name);
        PlainPrefix(name, "market_chart");
    }
  }

  lemma PlainPrefix(name: string, segment: string)
    requires NoColon(name) && NoColon(segment)
    ensures segment + ":" <= name + ":" <==> name == segment
  {
    if segment + ":" <= name + ":" {
      assert (name + ":")[|segment|] == ':';
      assert (name + ":")[..|segment|] == segment;
    }
  }

  // ---------- chart keys ----------

  predicate PlainParts(days: string, interval: string) {
    NoColon(days) && NoColon(interval)
  }

  /** The key up to the days. */
  function ChartStem(id: string, currency: string): string {
    "market_chart:" + id + ":" + currency + ":days"
  }

  lemma ChartStemInjective(id1: string, cur1: string, id2: string, cur2: string)
    requires ChartStem(id1, cur1) == ChartStem(id2, cur2)
    ensures id1 + ":" + cur1 == id2 + ":" + cur2
  {
    var n := |"market_chart:"|;
    assert ChartStem(id1, cur1) == "market_chart:" + (id1 + ":" + cur1) + ":days";
    assert ChartStem(id2, cur2) == "market_chart:" + (id2 + ":" + cur2) + ":days";
    assert ChartStem(id1, cur1)[n..][..|id1 + ":" + cur1|] == id1 + ":" + cur1;
    assert ChartStem(id2, cur2)[n..][..|id2 + ":" + cur2|] == id2 + ":" + cur2;
  }

  lemma PlainChartKey(id: string, currency: string, days: string, interval: string)
    ensures interval == "" ==> ChartKey(id, currency, days, interval) == ChartStem(id, currency) + ":" + days
    ensures interval != "" ==> ChartKey(id, currency, days, interval)
                               == (ChartStem(id, currency) + ":" + days + ":interval") + ":" + interval
  {
    var stem := ChartStem(id, currency);
    if interval != "" {
      assert ":interval:" + interval == ":interval" + ":" + interval;
    }
    assert ":days:" + days == ":days" + ":" + days;
  }

  /** A key with an interval and one without are told apart by their last segment but one. */
  lemma IntervalVisible(stem1: string, days1: string, stem2: string, stem2body: string, days2: string,
                        interval2: string)
    requires NoColon(days1) && NoColon(interval2) && stem1 == stem2body + ":days"
    ensures stem1 + ":" + days1 != (stem2 + ":" + days2 + ":interval") + ":" + interval2
  {
    if stem1 + ":" + days1 == (stem2 + ":" + days2 + ":interval") + ":" + interval2 {
      LastColonSplit(stem1, days1, stem2 + ":" + days2 + ":interval", interval2);
      assert stem2 + ":" + days2 + ":interval" == (stem2 + ":" + days2) + ":" + "interval";
      assert stem1 == stem2body + ":" + "days";
      LastColonSplit(stem2body, "days", stem2 + ":" + days2, "interval");
    }
  }

  lemma DropInterval(a: string, b: string)
    requires a + ":interval" == b + ":interval"
    ensures a == b
  {
    assert a == (a + ":interval")[..|a|] && b == (b + ":interval")[..|b|];
  }

  /**
    Two chart keys agree exactly when the days, the interval, and the coin id
    and currency with a colon between them agree; days and intervals of valid
    requests have no colon.
  */
  lemma ChartKeyParts(id1: string, cur1: string, days1: string, int1: string,
                      id2: string, cur2: string, days2: string, int2: string)
    requires PlainParts(days1, int1) && PlainParts(days2, int2)
    ensures ChartKey(id1, cur1, days1, int1) == ChartKey(id2, cur2, days2, int2)
            <==> days1 == days2 && int1 == int2 && id1 + ":" + cur1 == id2 + ":" + cur2
  {
    if ChartKey(id1, cur1, days1, int1) == ChartKey(id2, cur2, days2, int2) {
      SameChartKey(id1, cur1, days1, int1, id2, cur2, days2, int2);
    } else if id1 + ":" + cur1 == id2 + ":" + cur2 {
      assert ChartStem(id1, cur1) == "market_chart:" + (id1 + ":" + cur1) + ":days";
      assert ChartStem(id2, cur2) == "market_chart:" + (id2 + ":" + cur2) + ":days";
      PlainChartKey(id1, cur1, days1, int1);
      PlainChartKey(id2, cur2, days2, int2);
    }
  }

  lemma SameChartKey(id1: string, cur1: string, days1: string, int1: string,
                     id2: string, cur2: string, days2: string, int2: string)
    requires PlainParts(days1, int1) && PlainParts(days2, int2)
    requires ChartKey(id1, cur1, days1, int1) == ChartKey(id2, cur2, days2, int2)
    ensures days1 == days2 && int1 == int2 && id1 + ":" + cur1 == id2 + ":" + cur2
  {
    var s1, s2 := ChartStem(id1, cur1), ChartStem(id2, cur2);
    PlainChartKey(id1, cur1, days1, int1);
    PlainChartKey(id2, cur2, days2, int2);
    if int1 == "" && int2 != "" {
      IntervalVisible(s1, days1, s2, "market_chart:" + id1 + ":" + cur1, days2, int2);
    } else if int1 != "" && int2 == "" {
      IntervalVisible(s2, days2, s1, "market_chart:" + id2 + ":" + cur2, days1, int1);
    } else {
      if int1 != "" {
        LastColonSplit(s1 + ":" + days1 + ":interval", int1, s2 + ":" + days2 + ":interval", int2);
        DropInterval(s1 + ":" + days1, s2 + ":" + days2);
      }
      LastColonSplit(s1, days1, s2, days2);
      ChartStemInjective(id1, cur1, id2, cur2);
    }
  }

  /** Chart keys determine the whole request, whatever the coin ids, when the currencies have no colon. */
  lemma ChartKeyInjective(id1: string, cur1: string, days1: string, int1: string,
                          id2: string, cur2: string, days2: string, int2: string)
    requires PlainParts(days1, int1) && PlainParts(days2, int2) && NoColon(cur1) && NoColon(cur2)
    requires ChartKey(id1, cur1, days1, int1) == ChartKey(id2, cur2, days2, int2)
    ensures id1 == id2 && cur1 == cur2 && days1 == days2 && int1 == int2
  {
    ChartKeyParts(id1, cur1, days1, int1, id2, cur2, days2, int2);
    LastColonSplit(id1, cur1, id2, cur2);
  }

  /** Some other id and currency make the same key. */
  ghost predicate HasTwin(id: string, currency: string, days: string, interval: string) {
    exists id2, cur2 :: id2 != id && ChartKey(id2, cur2, days, interval) == ChartKey(id, currency, days, interval)
  }

  /** A request shares its key with another coin exactly when its own id or currency has a colon. */
  lemma TwinExactly(id: string, currency: string, days: string, interval: string)
    requires PlainParts(days, interval)
    ensures HasTwin(id, currency, days, interval) <==> !NoColon(id) || !NoColon(currency)
  {
    if HasTwin(id, currency, days, interval) {
      var id2, cur2 :| id2 != id && ChartKey(id2, cur2, days, interval) == ChartKey(id, currency, days, interval);
      ChartKeyParts(id2, cur2, days, interval, id, currency, days, interval);
      OtherColon(id, currency, id2, cur2);
    }
    if !NoColon(id) {
      IndexFound(id, ':');
      TwinAt(id, currency, days, interval, IndexOf(id, ':'));
    } else if !NoColon(currency) {
      IndexFound(currency, ':');
      TwinAt(id, currency, days, interval, |id| + 1 + IndexOf(currency, ':'));
    }
  }

  lemma OtherColon(id: string, currency: string, id2: string, cur2: string)
    requires id + ":" + currency == id2 + ":" + cur2 && id != id2
    ensures !NoColon(id) || !NoColon(currency)
  {
    var whole, n := id + ":" + currency, |id2|;
    assert whole == id2 + ":" + cur2;
    assert whole[n] == ':' && whole[..n] == id2 && whole[..|id|] == id;
    assert if n < |id| then id[n] == ':' else currency[n - |id| - 1] == ':';
  }

  lemma TwinAt(id: string, currency: string, days: string, interval: string, k: nat)
    requires PlainParts(days, interval)
    requires k != |id| && k < |id + ":" + currency| && (id + ":" + currency)[k] == ':'
    ensures HasTwin(id, currency, days, interval)
  {
    var whole := id + ":" + currency;
    assert whole == whole[..k] + ":" + whole[k + 1..];
    ChartKeyParts(whole[..k], whole[k + 1..], days, interval, id, currency, days, interval);
    assert |whole[..k]| != |id|;
  }
}
