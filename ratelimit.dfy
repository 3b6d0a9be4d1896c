/**
 * The per-client rate-limit middleware: one token-bucket limiter per
 * (client IP, configured ceiling), a "blocked until" instant per such key
 * installed when the limiter denies a request, the instant of the last
 * admitted request per key, and the periodic sweep of idle limiters.
 *
 * Time is an explicit integer `now` in milliseconds. The token bucket's
 * arithmetic is not modelled: a limiter is an object carrying its rate and
 * burst, and the answer of its Allow() is an input.
 */
module RateLimit {
  import opened Wrappers

  /** Cool-down installed after a denial: two minutes. */
  const BlockMs := 120000
  /** A limiter idle for longer than fifteen minutes is swept. */
  const StaleMs := 900000

  datatype LimiterKey = LimiterKey(ip: string, rate: int)

  /** A stored time.Time: the zero value or an instant. */
  datatype Moment = ZeroTime | At(ms: int)

  /**
   * The stored block is still in force: the zero time counts as `now`, and
   * `now.Before(now)` is false.
   */
  predicate BlockActive(m: Moment, now: int) {
    m.At? && now < m.ms
  }

  /** A limiter created by rate.NewLimiter(perSecond, burst); its tokens are not modelled. */
  class Limiter {
    const limit: int
    const burst: int

    constructor (limit: int, burst: int)
      ensures this.limit == limit && this.burst == burst
    {
      this.limit := limit;
      this.burst := burst;
    }
  }

  datatype Verdict =
    | InvalidConfig          // 500 "invalid rate limit configuration"
    | StillBlocked(until: int)  // 429, the block window is in force
    | Limited(until: int)       // 429, the limiter denied; blocked until `until`
    | Admitted               // the request goes on to the handler

  function StatusOf(v: Verdict): (code: int)
    ensures code == 500 <==> v.InvalidConfig?
    ensures code == 429 <==> v.StillBlocked? || v.Limited?
  {
    match v
    case InvalidConfig => 500
    case StillBlocked(_) => 429
    case Limited(_) => 429
    case Admitted => 200
  }

  function Max(a: int, b: int): int { if a < b then b else a }

  /** The keys a sweep at `now` evicts: those with no recorded access or one older than StaleMs. */
  function Expired(keys: set<LimiterKey>, lastAccess: map<LimiterKey, int>, now: int): set<LimiterKey> {
    set k | k in keys && (k !in lastAccess || now - lastAccess[k] > StaleMs)
  }

  /** The entries of a sequence, as a set. */
  function Elems<T>(s: seq<T>): set<T> {
    set x | x in s
  }

  class Registry {
    var limiters: map<LimiterKey, Limiter>
    var lastAccess: map<LimiterKey, int>
    var blockedUntil: map<LimiterKey, Moment>

    constructor ()
      ensures limiters == map[] && lastAccess == map[] && blockedUntil == map[]
    {
      limiters := map[];
      lastAccess := map[];
      blockedUntil := map[];
    }

    /**
     * getLimiter: the stored limiter for `key` when there is one, never
     * replaced; otherwise a new one with rate perSecond and burst
     * max(perSecond, 1), stored under `key`.
     */
    method GetLimiter(key: LimiterKey, perSecond: int) returns (limiter: Limiter)
      modifies this
      ensures key in limiters && limiter == limiters[key]
      ensures key in old(limiters) ==> limiters == old(limiters)
      ensures key !in old(limiters) ==>
        && fresh(limiter) && limiter.limit == perSecond && limiter.burst == Max(perSecond, 1)
        && limiters == old(limiters)[key := limiter]
      ensures lastAccess == old(lastAccess) && blockedUntil == old(blockedUntil)
    {
      if key in limiters {
        return limiters[key];
      }
      var burst := perSecond;
      if burst < 1 {
        burst := 1;
      }
      // LoadOrStore: with one caller at a time the key is still absent here
      var newLimiter := new Limiter(perSecond, burst);
      limiters := limiters[key := newLimiter];
      limiter := newLimiter;
    }

    /**
     * The middleware body for one request from `ip` under ceiling
     * `perSecond` at `now`; `allow` is what the limiter's Allow() answers.
     */
    method RateLimit(ip: string, perSecond: int, now: int, allow: bool) returns (v: Verdict)
      modifies this
      ensures perSecond <= 0 ==>
        v == InvalidConfig && limiters == old(limiters) && lastAccess == old(lastAccess) && blockedUntil == old(blockedUntil)
      ensures perSecond > 0 ==>
        var key := LimiterKey(ip, perSecond);
        if key in old(blockedUntil) && BlockActive(old(blockedUntil)[key], now) then
          && v == StillBlocked(old(blockedUntil)[key].ms)
          && limiters == old(limiters) && lastAccess == old(lastAccess) && blockedUntil == old(blockedUntil)
        else
          && key in limiters
          && (key in old(limiters) ==> limiters == old(limiters))
          && (key !in old(limiters) ==>
                && limiters == old(limiters)[key := limiters[key]] && fresh(limiters[key])
                && limiters[key].limit == perSecond && limiters[key].burst == Max(perSecond, 1))
          && (allow ==>
                v == Admitted && lastAccess == old(lastAccess)[key := now] && blockedUntil == old(blockedUntil) - {key})
          && (!allow ==>
                && v == Limited(now + BlockMs) && lastAccess == old(lastAccess)
                && blockedUntil == old(blockedUntil)[key := At(now + BlockMs)])
    {
      if perSecond <= 0 {
        return InvalidConfig;
      }
      var key := LimiterKey(ip, perSecond);
      if key in blockedUntil {
        var blockTime := blockedUntil[key];
        var until := if blockTime.ZeroTime? then now else blockTime.ms;
        if now < until {
          return StillBlocked(until);
        }
        blockedUntil := blockedUntil - {key};
      }
      var limiter := GetLimiter(key, perSecond);
      if !allow {
        var blockTime := now + BlockMs;
        blockedUntil := blockedUntil[key := At(blockTime)];
        return Limited(blockTime);
      }
      lastAccess := lastAccess[key := now];
      v := Admitted;
    }

    /**
     * The first loop of a sweep: every limiter key whose last access is
     * missing or older than StaleMs, each listed once.
     */
    method ExpiredKeys(now: int) returns (expiredKeys: seq<LimiterKey>)
      ensures Elems(expiredKeys) == Expired(limiters.Keys, lastAccess, now)
      ensures forall i, j :: 0 <= i < j < |expiredKeys| ==> expiredKeys[i] != expiredKeys[j]
    {
      expiredKeys := [];
      var pending := limiters.Keys;
      while pending != {}
        invariant pending <= limiters.Keys
        invariant Elems(expiredKeys) == Expired(limiters.Keys - pending, lastAccess, now)
        invariant forall i :: 0 <= i < |expiredKeys| ==> expiredKeys[i] !in pending
        invariant forall i, j :: 0 <= i < j < |expiredKeys| ==> expiredKeys[i] != expiredKeys[j]
        decreases pending
      {
        var k :| k in pending;
        ghost var before := expiredKeys;
        if k in lastAccess {
          if now - lastAccess[k] > StaleMs {
            expiredKeys := expiredKeys + [k];
          }
        } else {
          expiredKeys := expiredKeys + [k];
        }
        assert Elems(before + [k]) == Elems(before) + {k};
        assert Expired(limiters.Keys - (pending - {k}), lastAccess, now)
            == Expired(limiters.Keys - pending, lastAccess, now) + Expired({k}, lastAccess, now);
        pending := pending - {k};
      }
    }

    /**
     * One tick of cleanupLimiters: evict the expired keys from the limiters
     * and from the last-access times; the block windows are not touched.
     */
    method Sweep(now: int)
      modifies this
      ensures var gone := Expired(old(limiters).Keys, old(lastAccess), now);
        && limiters == old(limiters) - gone
        && lastAccess == old(lastAccess) - gone
        && blockedUntil == old(blockedUntil)
    {
      var expiredKeys := ExpiredKeys(now);
      ghost var gone := Expired(limiters.Keys, lastAccess, now);
      ghost var limiters0, lastAccess0 := limiters, lastAccess;
      for i := 0 to |expiredKeys|
        invariant limiters == limiters0 - Elems(expiredKeys[..i])
        invariant lastAccess == lastAccess0 - Elems(expiredKeys[..i])
        invariant blockedUntil == old(blockedUntil)
      {
        var k := expiredKeys[i];
        assert Elems(expiredKeys[..i + 1]) == Elems(expiredKeys[..i]) + {k} by {
          assert expiredKeys[..i + 1] == expiredKeys[..i] + [k];
        }
        limiters := limiters - {k};
        lastAccess := lastAccess - {k};
      }
      assert expiredKeys[..|expiredKeys|] == expiredKeys;
    }
  }

  /**
   * After a sweep every limiter left has been used within StaleMs of `now`,
   * and a limiter used within that time is never evicted.
   */
  lemma SweepKeepsExactlyRecent(limiters: set<LimiterKey>, lastAccess: map<LimiterKey, int>, now: int, k: LimiterKey)
    requires k in limiters
    ensures k !in Expired(limiters, lastAccess, now) <==> k in lastAccess && now - lastAccess[k] <= StaleMs
  {
  }

  /** A second sweep at the same instant evicts nothing more. */
  lemma SweepIdempotent(limiters: set<LimiterKey>, lastAccess: map<LimiterKey, int>, now: int)
    ensures var gone := Expired(limiters, lastAccess, now);
      Expired(limiters - gone, lastAccess - gone, now) == {}
  {
    var gone := Expired(limiters, lastAccess, now);
    forall k | k in limiters - gone
      ensures k !in Expired(limiters - gone, lastAccess - gone, now)
    {
    }
  }

  /**
   * The burst scenario: five admitted requests at one instant, a sixth
   * denied by the limiter, a seventh a second later rejected by the block
   * window, and one at cool-down plus one second admitted again.
   */
  method BurstScenario() returns (verdicts: seq<Verdict>)
    ensures verdicts == [Admitted, Admitted, Admitted, Admitted, Admitted,
                         Limited(BlockMs), StillBlocked(BlockMs), Admitted]
  {
    var reg := new Registry();
    verdicts := [];
    var i := 0;
    while i < 5
      invariant 0 <= i <= 5 && verdicts == seq(i, _ => Admitted)
      invariant reg.blockedUntil == map[]
    {
      var v := reg.RateLimit("X", 5, 0, true);
      verdicts := verdicts + [v];
      i := i + 1;
    }
    var v6 := reg.RateLimit("X", 5, 0, false);
    var v7 := reg.RateLimit("X", 5, 1000, true);
    var v8 := reg.RateLimit("X", 5, BlockMs + 1000, true);
    verdicts := verdicts + [v6, v7, v8];
  }

  /** The same client under two ceilings has two independent entries. */
  method KeysSeparateCeilings() returns (fast: Verdict, slow: Verdict)
    ensures fast == Limited(BlockMs) && slow == Admitted
  {
    var reg := new Registry();
    fast := reg.RateLimit("X", 5, 0, false);
    slow := reg.RateLimit("X", 2, 1000, true);
  }

  /** A sweep evicts a limiter idle for over fifteen minutes and keeps one used within them. */
  method SweepScenario() returns (idleGone: bool, activeKept: bool)
    ensures idleGone && activeKept
  {
    var reg := new Registry();
    var _ := reg.RateLimit("idle", 5, 0, true);
    var _ := reg.RateLimit("active", 5, StaleMs, true);
    reg.Sweep(StaleMs + 1);
    idleGone := LimiterKey("idle", 5) !in reg.limiters;
    activeKept := LimiterKey("active", 5) in reg.limiters;
  }
}
