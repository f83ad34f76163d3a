/**
  Rate limiters per API key that follow the current configuration
  (coingecko_common/rate_limiter_manager.go).  A limiter is an object with a
  fixed rate, in requests per second, and a fixed burst; replacing a limiter
  makes a new object.
*/
module RateLimiter {
  import opened Wrappers
  import opened Strings
  import opened KeyManager

  datatype RateLimit = RateLimit(rateLimitPerMinute: int, burst: int)

  datatype Config = Config(pro: RateLimit, demo: RateLimit, noKey: RateLimit)

  const DEFAULT_PRO_RPM := 500
  const DEFAULT_DEMO_RPM := 30
  const DEFAULT_NO_KEY_RPM := 30

  function Setting(c: Config, t: KeyType): RateLimit {
    match t
    case ProKey => c.pro
    case DemoKey => c.demo
    case NoKey => c.noKey
  }

  function DefaultRPM(t: KeyType): int {
    match t
    case ProKey => DEFAULT_PRO_RPM
    case DemoKey => DEFAULT_DEMO_RPM
    case NoKey => DEFAULT_NO_KEY_RPM
  }

  /** limitForTypeLocked */
  function RateOf(c: Config, t: KeyType): (rate: real)
    ensures rate > 0.0
  {
    var rpm := Setting(c, t).rateLimitPerMinute;
    (if rpm <= 0 then DefaultRPM(t) else rpm) as real / 60.0
  }

  function Ceil(x: real): (n: int)
    ensures (n - 1) as real < x <= n as real
  {
    -((-x).Floor)
  }

  function DefaultBurst(rate: real): int {
    if rate <= 1.0 then 1 else Ceil(rate)
  }

  /** burstForTypeWithDefaultFromLimit */
  function BurstOf(c: Config, t: KeyType): (burst: int)
    ensures burst > 0
  {
    if Setting(c, t).burst > 0 then Setting(c, t).burst else DefaultBurst(RateOf(c, t))
  }

  // ---------- map keys ----------

  function KeyTypeString(t: KeyType): string {
    match t
    case ProKey => "pro"
    case DemoKey => "demo"
    case NoKey => "none"
  }

  function LimiterMapKey(key: string, t: KeyType): string {
    "type:" + KeyTypeString(t) + "|key:" + key
  }

  function ParseKeyType(mapKey: string): KeyType {
    if HasPrefix(mapKey, "type:") then
      var rest := mapKey[|"type:"|..];
      var idx := IndexOf(rest, '|');
      if 0 < idx < |rest| then
        var t := rest[..idx];
        if t == "pro" then ProKey
        else if t == "demo" then DemoKey
        else NoKey
      else NoKey
    else NoKey
  }

  /** Parsing recovers the type from the map key of every key string, whatever characters it holds. */
  lemma ParseInvertsMapKey(key: string, t: KeyType)
    ensures ParseKeyType(LimiterMapKey(key, t)) == t
  {
    var name := KeyTypeString(t);
    var mapKey := LimiterMapKey(key, t);
    assert mapKey == "type:" + (name + ['|'] + ("key:" + key));
    assert mapKey[|"type:"|..] == name + ['|'] + ("key:" + key);
    IndexOfSplit(name, '|', "key:" + key);
    assert mapKey[|"type:"|..][..|name|] == name;
  }

  /** No two pairs of type and key share a map key. */
  lemma MapKeyInjective(key1: string, t1: KeyType, key2: string, t2: KeyType)
    requires LimiterMapKey(key1, t1) == LimiterMapKey(key2, t2)
    ensures key1 == key2 && t1 == t2
  {
    ParseInvertsMapKey(key1, t1);
    ParseInvertsMapKey(key2, t2);
    var prefix := "type:" + KeyTypeString(t1) + "|key:";
    assert LimiterMapKey(key1, t1)[|prefix|..] == key1;
    assert LimiterMapKey(key2, t2)[|prefix|..] == key2;
  }

  // ---------- the manager ----------

  class Limiter {
    const rate: real
    const burst: int

    constructor (rate: real, burst: int)
      ensures this.rate == rate && this.burst == burst
    {
      this.rate, this.burst := rate, burst;
    }
  }

  /** The limiter has the rate and burst that the configuration gives the key's type. */
  predicate Fits(c: Config, mapKey: string, limiter: Limiter) {
    && limiter.rate == RateOf(c, ParseKeyType(mapKey))
    && limiter.burst == BurstOf(c, ParseKeyType(mapKey))
  }

  /** The two configurations treat the key's type alike. */
  predicate Unchanged(c: Config, d: Config, mapKey: string) {
    Setting(c, ParseKeyType(mapKey)) == Setting(d, ParseKeyType(mapKey))
  }

  /** What became of one stored limiter; `made` are the limiters that were made since. */
  ghost predicate Refitted(before: map<string, Limiter>, now: map<string, Limiter>, made: set<Limiter>,
                           c: Config, d: Config, mapKey: string)
    requires mapKey in before && mapKey in now
  {
    && Fits(d, mapKey, now[mapKey])
    && if Unchanged(c, d, mapKey) then now[mapKey] == before[mapKey] else now[mapKey] in made
  }

  /** All limiters but those under the given keys have been dealt with. */
  ghost predicate RefittedBut(before: map<string, Limiter>, now: map<string, Limiter>, keys: set<string>,
                              made: set<Limiter>, c: Config, d: Config)
  {
    && now.Keys == before.Keys
    && forall k :: k in before ==>
         if k in keys then now[k] == before[k] else Refitted(before, now, made, c, d, k)
  }

  lemma RefitOneMore(before: map<string, Limiter>, mid: map<string, Limiter>, now: map<string, Limiter>,
                     keys: set<string>, mapKey: string, made: set<Limiter>, more: set<Limiter>, c: Config, d: Config)
    requires RefittedBut(before, mid, keys, made, c, d) && mapKey in keys && mapKey in before
    requires now.Keys == mid.Keys && forall k :: k in now && k != mapKey ==> now[k] == mid[k]
    requires Refitted(mid, now, more, c, d, mapKey)
    ensures RefittedBut(before, now, keys - {mapKey}, made + more, c, d)
  {
  }

  lemma StillFits(c: Config, d: Config, mapKey: string, limiter: Limiter)
    requires Unchanged(c, d, mapKey) && Fits(c, mapKey, limiter)
    ensures Fits(d, mapKey, limiter)
  {
  }

  /** A part of an operation that runs under the manager's lock. */
  datatype Section = Set(config: Config) | Create(key: string, keyType: KeyType)

  datatype Url = Url(proParam: string, demoParam: string, host: string)

  class RateLimiterManager {
    var keyToLimiter: map<string, Limiter>
    var config: Config

    /** Every stored limiter has the rate and burst that the current configuration gives its key type. */
    ghost predicate Coherent()
      reads this
    {
      forall k :: k in keyToLimiter ==> Fits(config, k, keyToLimiter[k])
    }

    constructor ()
      ensures Coherent() && keyToLimiter == map[]
    {
      keyToLimiter := map[];
      config := Config(RateLimit(0, 0), RateLimit(0, 0), RateLimit(0, 0));
    }

    /**
      Applies a configuration.  Limiters of the types whose settings change are
      replaced by new objects; all others keep their identity.
    */
    method SetConfig(newCfg: Config)
      requires Coherent()
      modifies this
      ensures Coherent() && config == newCfg
      ensures keyToLimiter.Keys == old(keyToLimiter.Keys)
      ensures forall k :: k in keyToLimiter ==>
                if Unchanged(old(config), newCfg, k)
                then keyToLimiter[k] == old(keyToLimiter)[k]
                else fresh(keyToLimiter[k])
    {
      var oldCfg := config;
      config := newCfg;
      var keys := keyToLimiter.Keys;
      ghost var before, made := keyToLimiter, {};
      while keys != {}
        invariant config == newCfg && fresh(made)
        invariant keys <= before.Keys
        invariant RefittedBut(before, keyToLimiter, keys, made, oldCfg, newCfg)
        decreases |keys|
      {
        var mapKey :| mapKey in keys;
        ghost var mid := keyToLimiter;
        ghost var replaced := RefitLimiter(oldCfg, mapKey);
        RefitOneMore(before, mid, keyToLimiter, keys, mapKey, made, replaced, oldCfg, newCfg);
        made := made + replaced;
        keys := keys - {mapKey};
      }
    }

    /** The body of SetConfig's loop: a new limiter for a key whose type changed. */
    method RefitLimiter(oldCfg: Config, mapKey: string) returns (ghost replaced: set<Limiter>)
      requires mapKey in keyToLimiter && Fits(oldCfg, mapKey, keyToLimiter[mapKey])
      modifies this`keyToLimiter
      ensures keyToLimiter.Keys == old(keyToLimiter.Keys)
      ensures forall k :: k in keyToLimiter && k != mapKey ==> keyToLimiter[k] == old(keyToLimiter)[k]
      ensures fresh(replaced) && Refitted(old(keyToLimiter), keyToLimiter, replaced, oldCfg, config, mapKey)
    {
      replaced := {};
      var kType := ParseKeyType(mapKey);
      var rpmChanged := Setting(oldCfg, kType).rateLimitPerMinute != Setting(config, kType).rateLimitPerMinute;
      var burstChanged := Setting(oldCfg, kType).burst != Setting(config, kType).burst;
      if rpmChanged || burstChanged {
        var limiter := new Limiter(RateOf(config, kType), BurstOf(config, kType));
        keyToLimiter := keyToLimiter[mapKey := limiter];
        replaced := {limiter};
      } else {
        StillFits(oldCfg, config, mapKey, keyToLimiter[mapKey]);
      }
    }

    /** The part of a lookup under the write lock: looks again, then creates. */
    method CreateLimiter(key: string, keyType: KeyType) returns (limiter: Limiter)
      requires Coherent()
      modifies this
      ensures Coherent() && config == old(config)
      ensures var k := LimiterMapKey(key, keyType);
              && k in keyToLimiter && keyToLimiter[k] == limiter
              && (if k in old(keyToLimiter) then keyToLimiter == old(keyToLimiter)
                  else fresh(limiter) && keyToLimiter == old(keyToLimiter)[k := limiter])
    {
      var mapKey := LimiterMapKey(key, keyType);
      if mapKey in keyToLimiter {
        return keyToLimiter[mapKey];
      }
      ParseInvertsMapKey(key, keyType);
      limiter := new Limiter(RateOf(config, keyType), BurstOf(config, keyType));
      keyToLimiter := keyToLimiter[mapKey := limiter];
    }

    /** Other goroutines' locked sections, in any order. */
    method Interfere(sections: seq<Section>)
      requires Coherent()
      modifies this
      ensures Coherent()
      ensures old(keyToLimiter.Keys) <= keyToLimiter.Keys
    {
      for i := 0 to |sections|
        invariant Coherent()
        invariant old(keyToLimiter.Keys) <= keyToLimiter.Keys
      {
        match sections[i] {
          case Set(c) => SetConfig(c);
          case Create(key, keyType) =>
            var limiter := CreateLimiter(key, keyType);
        }
      }
    }

    /**
      A whole lookup.  It releases the read lock before it takes the write lock,
      so any sections of other goroutines may run in between; still the limiter
      it returns is stored and fits the configuration at that time.
    */
    method GetLimiterForKey(key: string, keyType: KeyType, between: seq<Section>) returns (limiter: Limiter)
      requires Coherent()
      modifies this
      ensures Coherent()
      ensures LimiterMapKey(key, keyType) in keyToLimiter && keyToLimiter[LimiterMapKey(key, keyType)] == limiter
      ensures limiter.rate == RateOf(config, keyType) && limiter.burst == BurstOf(config, keyType)
      ensures LimiterMapKey(key, keyType) in old(keyToLimiter) ==>
                limiter == old(keyToLimiter)[LimiterMapKey(key, keyType)] && keyToLimiter == old(keyToLimiter)
    {
      var mapKey := LimiterMapKey(key, keyType);
      ParseInvertsMapKey(key, keyType);
      if mapKey in keyToLimiter {
        return keyToLimiter[mapKey];
      }
      Interfere(between);
      limiter := CreateLimiter(key, keyType);
    }

    /** The pro parameter wins over the demo parameter; keyless limits apply to the two known hosts only. */
    method GetLimiterForURL(u: Url, between: seq<Section>) returns (limiter: Option<Limiter>)
      requires Coherent()
      modifies this
      ensures Coherent()
      ensures limiter.None? <==> u.proParam == "" && u.demoParam == ""
                                 && u.host != "api.coingecko.com" && u.host != "pro-api.coingecko.com"
      ensures limiter.Some? ==>
                var t := if u.proParam != "" then ProKey else if u.demoParam != "" then DemoKey else NoKey;
                limiter.value.rate == RateOf(config, t) && limiter.value.burst == BurstOf(config, t)
    {
      if u.proParam != "" {
        var l := GetLimiterForKey(u.proParam, ProKey, between);
        return Some(l);
      }
      if u.demoParam != "" {
        var l := GetLimiterForKey(u.demoParam, DemoKey, between);
        return Some(l);
      }
      if u.host == "api.coingecko.com" || u.host == "pro-api.coingecko.com" {
        var l := GetLimiterForKey("", NoKey, between);
        return Some(l);
      }
      return None;
    }
  }

  /** Each kind of key has the rate of its own setting, in requests per minute, or its default. */
  lemma RatesMean(c: Config)
    ensures RateOf(c, ProKey) * 60.0
            == (if c.pro.rateLimitPerMinute > 0 then c.pro.rateLimitPerMinute else 500) as real
    ensures RateOf(c, DemoKey) * 60.0
            == (if c.demo.rateLimitPerMinute > 0 then c.demo.rateLimitPerMinute else 30) as real
    ensures RateOf(c, NoKey) * 60.0
            == (if c.noKey.rateLimitPerMinute > 0 then c.noKey.rateLimitPerMinute else 30) as real
    ensures c.pro.burst > 0 ==> BurstOf(c, ProKey) == c.pro.burst
    ensures c.demo.burst > 0 ==> BurstOf(c, DemoKey) == c.demo.burst
    ensures c.noKey.burst > 0 ==> BurstOf(c, NoKey) == c.noKey.burst
  {
  }

  /**
    Without configured burst, the burst is the smallest whole number of requests
    that is at least one second's worth, and never less than one.
  */
  lemma DefaultBurstIsLeast(c: Config, t: KeyType, n: int)
    requires n >= 1
    requires match t case ProKey => c.pro.burst <= 0 case DemoKey => c.demo.burst <= 0 case NoKey => c.noKey.burst <= 0
    ensures BurstOf(c, t) <= n <==> RateOf(c, t) <= n as real
  {
    var rate := RateOf(c, t);
    if rate > 1.0 {
      var m := Ceil(rate);
      assert (m - 1) as real < rate <= m as real;
    }
  }
}
