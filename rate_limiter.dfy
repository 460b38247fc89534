/** The decision engine (pkg/ratelimiter/rate_limiter.go): resolves a request's
    identity to a namespaced key and a limit, then runs a fixed protocol of
    storage calls and returns a decision.

    `Decide` is the protocol for any backend: given the replies a backend gives,
    it says which calls are made, in what order, and what comes back. The class
    `RateLimiter` runs the same protocol against the in-memory backend and is
    proved to follow `Decide`. */
module RateLimiting {
  import opened Storage
  import MemoryStorage

  /** The limit policy, fixed when the engine is built. */
  datatype Config = Config(defaultIPLimit: int, defaultTokenLimit: int, blockDuration: int, tokenLimits: map<string, int>)

  /** The decision for one request. */
  datatype LimitResult = LimitResult(allowed: bool, remaining: int, resetTime: int, blocked: bool)

  /** The storage calls one check made and what it returned. */
  datatype Run = Run(calls: seq<Call>, result: Outcome<LimitResult>)

  /** Every decision the engine returns is either an allowance or a block, never both,
      and never promises a negative remaining quota. */
  predicate Consistent(r: LimitResult)
  {
    r.allowed == !r.blocked && r.remaining >= 0
  }

  /** The decision for a key that is, or has just become, blocked. */
  function Denied(config: Config, now: int): LimitResult
  {
    LimitResult(false, 0, now + config.blockDuration, true)
  }

  /** A non-empty token wins over the IP; a per-token override wins over the default. */
  function KeyAndLimit(config: Config, ip: string, token: string): (r: (string, int))
    // the key is namespaced, and the requester can be read back from it
    ensures token != "" ==> |r.0| == 6 + |token| && r.0[..6] == "token:" && r.0[6..] == token
    ensures token == "" ==> |r.0| == 3 + |ip| && r.0[..3] == "ip:" && r.0[3..] == ip
    // a per-token override wins over the default token limit; the IP limit applies only without a token
    ensures token != "" && token in config.tokenLimits ==> r.1 == config.tokenLimits[token]
    ensures token != "" && token !in config.tokenLimits ==> r.1 == config.defaultTokenLimit
    ensures token == "" ==> r.1 == config.defaultIPLimit
  {
    if token != "" then
      if token in config.tokenLimits then ("token:" + token, config.tokenLimits[token])
      else ("token:" + token, config.defaultTokenLimit)
    else ("ip:" + ip, config.defaultIPLimit)
  }

  /** The full protocol of one check on `key`: query the block, count, block. */
  function Protocol(key: string, config: Config): seq<Call>
  {
    [IsBlockedCall(key), IncrementCall(key, Second), SetBlockCall(key, config.blockDuration)]
  }

  /** The engine's decision for a request, given the replies of any backend. */
  function Decide(config: Config, ip: string, token: string, now: int, replies: Replies): (run: Run)
    // the calls made are a prefix of the protocol on the resolved key, so each happens at most once and in order
    ensures var (key, _) := KeyAndLimit(config, ip, token);
      1 <= |run.calls| <= 3 && run.calls == Protocol(key, config)[..|run.calls|]
    // an error comes back exactly when the last call made failed, and no call follows a failure
    ensures run.result.Unavailable? <==> Fails(replies, run.calls[|run.calls| - 1])
    ensures forall i | 0 <= i < |run.calls| - 1 :: !Fails(replies, run.calls[i])
    // a key found blocked (or whose block state is unknown) is never counted
    ensures 2 <= |run.calls| <==> replies.isBlocked == Ok(false)
    // the block is set exactly when a successful count exceeds the limit
    ensures var (_, limit) := KeyAndLimit(config, ip, token);
      |run.calls| == 3 <==> (replies.isBlocked == Ok(false) && replies.increment.Ok? && replies.increment.value > limit)
    // the request is allowed exactly when the key was not blocked and its count is within the limit
    ensures var (_, limit) := KeyAndLimit(config, ip, token);
      (run.result.Ok? && run.result.value.allowed)
      <==> (replies.isBlocked == Ok(false) && replies.increment.Ok? && replies.increment.value <= limit)
    ensures run.result.Ok? ==> Consistent(run.result.value)
  {
    var (key, limit) := KeyAndLimit(config, ip, token);
    match replies.isBlocked
    case Unavailable => Run([IsBlockedCall(key)], Unavailable)
    case Ok(blocked) =>
      if blocked then Run([IsBlockedCall(key)], Ok(Denied(config, now)))
      else
        match replies.increment
        case Unavailable => Run([IsBlockedCall(key), IncrementCall(key, Second)], Unavailable)
        case Ok(count) =>
          if count > limit then
            var calls := [IsBlockedCall(key), IncrementCall(key, Second), SetBlockCall(key, config.blockDuration)];
            match replies.setBlock
            case Unavailable => Run(calls, Unavailable)
            case Ok(_) => Run(calls, Ok(Denied(config, now)))
          else
            var remaining := if limit - count < 0 then 0 else limit - count;
            Run([IsBlockedCall(key), IncrementCall(key, Second)], Ok(LimitResult(true, remaining, now + Second, false)))
  }

  /** Key resolution: with a token, the key is "token:" + token and the limit its
      override or the default token limit, whatever the IP; without one, the key is
      "ip:" + ip and the limit the default IP limit. */
  lemma KeyResolution(config: Config, ip: string, token: string, otherIp: string)
    ensures token != "" ==>
      KeyAndLimit(config, ip, token).0 == "token:" + token
      && KeyAndLimit(config, ip, token).1
         == (if token in config.tokenLimits then config.tokenLimits[token] else config.defaultTokenLimit)
      && KeyAndLimit(config, ip, token) == KeyAndLimit(config, otherIp, token)
    ensures token == "" ==> KeyAndLimit(config, ip, token) == ("ip:" + ip, config.defaultIPLimit)
  {
  }

  /** The "ip:" and "token:" key spaces never meet, whatever the strings. */
  lemma KeySpacesDisjoint(ip: string, token: string)
    ensures "ip:" + ip != "token:" + token
  {
    assert ("ip:" + ip)[0] == 'i';
    assert ("token:" + token)[0] == 't';
  }

  /** The resolved key identifies the requester: two requests share a key exactly
      when they carry the same non-empty token, or no token and the same IP. */
  lemma {:induction false} KeysIdentifyRequester(config: Config, ip1: string, token1: string, ip2: string, token2: string)
    ensures KeyAndLimit(config, ip1, token1).0 == KeyAndLimit(config, ip2, token2).0
      <==> (token1 == token2 && (token1 != "" || ip1 == ip2))
  {
    var k1, k2 := KeyAndLimit(config, ip1, token1).0, KeyAndLimit(config, ip2, token2).0;
    if token1 != "" && token2 == "" {
      KeySpacesDisjoint(ip2, token1);
    } else if token1 == "" && token2 != "" {
      KeySpacesDisjoint(ip1, token2);
    } else if token1 != "" && token2 != "" {
      if k1 == k2 {
        assert token1 == k1[6..];
        assert token2 == k2[6..];
      }
    } else {
      if k1 == k2 {
        assert ip1 == k1[3..];
        assert ip2 == k2[3..];
      }
    }
  }

  /** A key found blocked is denied at once: one call, no count, no new block. */
  lemma BlockedShortCircuits(config: Config, ip: string, token: string, now: int, replies: Replies)
    requires replies.isBlocked == Ok(true)
    ensures Decide(config, ip, token, now, replies)
      == Run([IsBlockedCall(KeyAndLimit(config, ip, token).0)], Ok(LimitResult(false, 0, now + config.blockDuration, true)))
  {
  }

  /** A count over the limit sets the block once, for the configured duration, and
      denies; if setting the block fails, the error is returned instead. */
  lemma OverLimitBlocks(config: Config, ip: string, token: string, now: int, replies: Replies)
    requires replies.isBlocked == Ok(false) && replies.increment.Ok?
    requires replies.increment.value > KeyAndLimit(config, ip, token).1
    ensures var key := KeyAndLimit(config, ip, token).0;
      Decide(config, ip, token, now, replies).calls
      == [IsBlockedCall(key), IncrementCall(key, Second), SetBlockCall(key, config.blockDuration)]
    ensures Decide(config, ip, token, now, replies).result
      == if replies.setBlock.Ok? then Ok(LimitResult(false, 0, now + config.blockDuration, true)) else Unavailable
  {
  }

  /** A count within the limit is allowed with the quota left; the clamp at 0 never
      changes the value, since the count is at most the limit on this path. */
  lemma WithinLimitAllows(config: Config, ip: string, token: string, now: int, replies: Replies)
    requires replies.isBlocked == Ok(false) && replies.increment.Ok?
    requires replies.increment.value <= KeyAndLimit(config, ip, token).1
    ensures var key, limit := KeyAndLimit(config, ip, token).0, KeyAndLimit(config, ip, token).1;
      Decide(config, ip, token, now, replies)
      == Run([IsBlockedCall(key), IncrementCall(key, Second)],
             Ok(LimitResult(true, limit - replies.increment.value, now + Second, false)))
  {
  }

  /** The cases of the engine's unit tests, under their policy of 10 per IP, 100 per
      token, a five-minute block and the override "abc123" -> 50: the three key
      resolutions, and the checks with a mocked backend (count 5 by IP, count 11 by IP,
      count 25 and count 51 by "abc123", and a key already blocked). */
  lemma UnitTestCases(now: int)
    ensures var config := Config(10, 100, 300 * Second, map["abc123" := 50]);
      && KeyAndLimit(config, "192.168.1.1", "") == ("ip:192.168.1.1", 10)
      && KeyAndLimit(config, "192.168.1.1", "abc123") == ("token:abc123", 50)
      && KeyAndLimit(config, "192.168.1.1", "xyz789") == ("token:xyz789", 100)
      && Decide(config, "192.168.1.1", "", now, Replies(Ok(false), Ok(5), Unavailable)).result
         == Ok(LimitResult(true, 5, now + Second, false))
      && Decide(config, "192.168.1.1", "", now, Replies(Ok(false), Ok(11), Ok(()))).result
         == Ok(LimitResult(false, 0, now + 300 * Second, true))
      && Decide(config, "192.168.1.1", "abc123", now, Replies(Ok(false), Ok(25), Unavailable)).result
         == Ok(LimitResult(true, 25, now + Second, false))
      && Decide(config, "192.168.1.1", "abc123", now, Replies(Ok(false), Ok(51), Ok(()))).result
         == Ok(LimitResult(false, 0, now + 300 * Second, true))
      && Decide(config, "192.168.1.1", "", now, Replies(Ok(true), Unavailable, Unavailable))
         == Run([IsBlockedCall("ip:192.168.1.1")], Ok(LimitResult(false, 0, now + 300 * Second, true)))
  {
    assert "ip:" + "192.168.1.1" == "ip:192.168.1.1";
    assert "token:" + "abc123" == "token:abc123";
    assert "token:" + "xyz789" == "token:xyz789";
  }

  /** The engine as built from the policy; its fields never change after `New`. */
  class RateLimiter {
    const storage: MemoryStorage.InMemoryStorage
    const config: Config

    constructor New(storage: MemoryStorage.InMemoryStorage, config: Config)
      ensures this.storage == storage && this.config == config
    {
      this.storage := storage;
      this.config := config;
    }

    /** Checks one request. The result and the calls made are those of `Decide` on the
        replies of the in-memory backend; its tables change only at the resolved key. */
    method CheckLimit(ip: string, token: string, now: int) returns (result: Outcome<LimitResult>)
      modifies storage
      ensures var key := KeyAndLimit(config, ip, token).0;
        var run := Decide(config, ip, token, now, MemoryStorage.RepliesTo(old(storage.counts), old(storage.blocked), key, now));
        result == run.result && storage.log == old(storage.log) + run.calls
      ensures var key, limit := KeyAndLimit(config, ip, token).0, KeyAndLimit(config, ip, token).1;
        var active := MemoryStorage.ActiveBlock(old(storage.blocked), key, now);
        var count := MemoryStorage.CountOf(old(storage.counts), key) + 1;
        && storage.counts == (if active then old(storage.counts) else old(storage.counts)[key := count])
        && storage.blocked
           == (if active then old(storage.blocked)
               else if count > limit then old(storage.blocked)[key := now + config.blockDuration]
               else MemoryStorage.AfterQuery(old(storage.blocked), key, now))
    {
      var key, limit := KeyAndLimit(config, ip, token).0, KeyAndLimit(config, ip, token).1;

      var blocked := storage.IsBlocked(key, now);
      if blocked.Unavailable? {
        return Unavailable;
      }
      if blocked.value {
        return Ok(Denied(config, now));
      }

      var count := storage.Increment(key, Second);
      if count.Unavailable? {
        return Unavailable;
      }

      if count.value > limit {
        var marked := storage.SetBlock(key, config.blockDuration, now);
        if marked.Unavailable? {
          return Unavailable;
        }
        return Ok(Denied(config, now));
      }

      var remaining := limit - count.value;
      if remaining < 0 {
        remaining := 0;
      }
      return Ok(LimitResult(true, remaining, now + Second, false));
    }

    /** Closes the backend and passes on its answer. */
    method Close() returns (r: Outcome<()>)
      ensures r == Ok(())
    {
      r := storage.Close();
    }
  }
}
