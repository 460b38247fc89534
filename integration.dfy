/** The end-to-end scenarios of test/integration_test.go: the engine over a fresh
    in-memory backend with IP limit 3, token limit 5, a 10-second block and the
    override "test_token" -> 2. Every request of a scenario arrives at the same
    instant `now`; the HTTP layer is left out, so a request is a direct check and
    "status 200" reads as "allowed". */
module Integration {
  import opened Storage
  import opened MemoryStorage
  import opened RateLimiting

  const TestConfig := Config(3, 5, 10 * Second, map["test_token" := 2])

  const ClientIP := "192.168.1.1"

  /** The allowed decision for the `n`-th request (counting from 1) of a key whose
      limit is `limit`, while at most `limit` have been made. */
  function AllowedResult(limit: int, n: int, now: int): LimitResult
  {
    LimitResult(true, limit - n, now + Second, false)
  }

  /** A fresh engine over a fresh in-memory backend with the test policy. */
  method SetupTestLimiter() returns (rl: RateLimiter)
    ensures fresh(rl) && fresh(rl.storage) && rl.config == TestConfig
    ensures rl.storage.counts == map[] && rl.storage.blocked == map[]
  {
    var storage := new InMemoryStorage();
    rl := new RateLimiter.New(storage, TestConfig);
  }

  /** How many times `c` occurs in the call log `calls`. */
  function Occurrences(calls: seq<Call>, c: Call): nat
  {
    if |calls| == 0 then 0 else (if calls[0] == c then 1 else 0) + Occurrences(calls[1..], c)
  }

  lemma {:induction false} OccurrencesAppend(a: seq<Call>, b: seq<Call>, c: Call)
    ensures Occurrences(a + b, c) == Occurrences(a, c) + Occurrences(b, c)
  {
    if |a| > 0 {
      assert (a + b)[1..] == a[1..] + b;
      OccurrencesAppend(a[1..], b, c);
    } else {
      assert a + b == b;
    }
  }

  /** The sequence of checks on one key of a fresh backend, for any policy and any
      requester. With limit `limit`, the first max(`limit`, 0) requests are allowed,
      leaving `limit` - 1 down to 0; the next one is denied at `now` and sets the block,
      once; the requests that follow at the `instants` the block still covers are denied
      without being counted. The call log holds nothing else. */
  method FreshKeySequence(config: Config, ip: string, token: string, now: int, instants: seq<int>)
    returns (results: seq<Outcome<LimitResult>>, rl: RateLimiter)
    requires forall j | 0 <= j < |instants| :: now <= instants[j] < now + config.blockDuration
    ensures fresh(rl) && rl.config == config
    ensures var key, limit := KeyAndLimit(config, ip, token).0, KeyAndLimit(config, ip, token).1;
      var allowed := if limit < 0 then 0 else limit;
      && |results| == allowed + 1 + |instants|
      && (forall i | 0 <= i < allowed :: results[i] == Ok(LimitResult(true, limit - (i + 1), now + Second, false)))
      && results[allowed] == Ok(Denied(config, now))
      && (forall j | 0 <= j < |instants| :: results[allowed + 1 + j] == Ok(Denied(config, instants[j])))
      && rl.storage.counts == map[key := allowed + 1]
      && rl.storage.blocked == map[key := now + config.blockDuration]
      && Occurrences(rl.storage.log, IsBlockedCall(key)) == allowed + 1 + |instants|
      && Occurrences(rl.storage.log, IncrementCall(key, Second)) == allowed + 1
      && Occurrences(rl.storage.log, SetBlockCall(key, config.blockDuration)) == 1
      && |rl.storage.log| == 2 * (allowed + 1) + 1 + |instants|
  {
    var storage := new InMemoryStorage();
    rl := new RateLimiter.New(storage, config);
    var key, limit := KeyAndLimit(config, ip, token).0, KeyAndLimit(config, ip, token).1;
    var allowed := if limit < 0 then 0 else limit;
    results := AllowedRequests(rl, ip, token, now, allowed);
    var r := BlockingRequest(rl, ip, token, now, allowed);
    results := results + [r];
    var denials := DeniedWhileBlocked(rl, ip, token, now + config.blockDuration, instants);
    results := results + denials;
  }

  /** The first `n` requests on a key of a fresh backend, all within its limit, are
      allowed with the quota left after each; each makes the IsBlocked and Increment calls. */
  method AllowedRequests(rl: RateLimiter, ip: string, token: string, now: int, n: nat)
    returns (results: seq<Outcome<LimitResult>>)
    requires n == 0 || n <= KeyAndLimit(rl.config, ip, token).1
    requires rl.storage.counts == map[] && rl.storage.blocked == map[] && rl.storage.log == []
    modifies rl.storage
    ensures var key, limit := KeyAndLimit(rl.config, ip, token).0, KeyAndLimit(rl.config, ip, token).1;
      && |results| == n
      && (forall i | 0 <= i < n :: results[i] == Ok(LimitResult(true, limit - (i + 1), now + Second, false)))
      && rl.storage.counts == (if n == 0 then map[] else map[key := n])
      && rl.storage.blocked == map[]
      && Occurrences(rl.storage.log, IsBlockedCall(key)) == n
      && Occurrences(rl.storage.log, IncrementCall(key, Second)) == n
      && Occurrences(rl.storage.log, SetBlockCall(key, rl.config.blockDuration)) == 0
      && |rl.storage.log| == 2 * n
  {
    var key, limit := KeyAndLimit(rl.config, ip, token).0, KeyAndLimit(rl.config, ip, token).1;
    ghost var query, count, block := IsBlockedCall(key), IncrementCall(key, Second), SetBlockCall(key, rl.config.blockDuration);
    assert [query, count][1..] == [count] && [count][1..] == [];
    results := [];
    for i := 0 to n
      invariant |results| == i
      invariant forall j | 0 <= j < i :: results[j] == Ok(LimitResult(true, limit - (j + 1), now + Second, false))
      invariant rl.storage.counts == if i == 0 then map[] else map[key := i]
      invariant rl.storage.blocked == map[]
      invariant Occurrences(rl.storage.log, query) == i && Occurrences(rl.storage.log, count) == i
      invariant Occurrences(rl.storage.log, block) == 0 && |rl.storage.log| == 2 * i
    {
      ghost var log0 := rl.storage.log;
      var r := rl.CheckLimit(ip, token, now);
      OccurrencesAppend(log0, [query, count], query);
      OccurrencesAppend(log0, [query, count], count);
      OccurrencesAppend(log0, [query, count], block);
      results := results + [r];
    }
  }

  /** The request after the first `n` on a key of a fresh backend, when `n` + 1 exceeds
      the limit: it is counted, sets the block and is denied. */
  method BlockingRequest(rl: RateLimiter, ip: string, token: string, now: int, n: nat)
    returns (result: Outcome<LimitResult>)
    requires var key, limit := KeyAndLimit(rl.config, ip, token).0, KeyAndLimit(rl.config, ip, token).1;
      && n + 1 > limit
      && rl.storage.counts == (if n == 0 then map[] else map[key := n])
      && rl.storage.blocked == map[]
    modifies rl.storage
    ensures var key := KeyAndLimit(rl.config, ip, token).0;
      && result == Ok(Denied(rl.config, now))
      && rl.storage.counts == map[key := n + 1]
      && rl.storage.blocked == map[key := now + rl.config.blockDuration]
      && |rl.storage.log| == |old(rl.storage.log)| + 3
      && Occurrences(rl.storage.log, IsBlockedCall(key)) == Occurrences(old(rl.storage.log), IsBlockedCall(key)) + 1
      && Occurrences(rl.storage.log, IncrementCall(key, Second)) == Occurrences(old(rl.storage.log), IncrementCall(key, Second)) + 1
      && Occurrences(rl.storage.log, SetBlockCall(key, rl.config.blockDuration))
         == Occurrences(old(rl.storage.log), SetBlockCall(key, rl.config.blockDuration)) + 1
  {
    var key := KeyAndLimit(rl.config, ip, token).0;
    ghost var query, count, block := IsBlockedCall(key), IncrementCall(key, Second), SetBlockCall(key, rl.config.blockDuration);
    ghost var log0 := rl.storage.log;
    result := rl.CheckLimit(ip, token, now);
    OccurrencesAppend(log0, [query, count, block], query);
    OccurrencesAppend(log0, [query, count, block], count);
    OccurrencesAppend(log0, [query, count, block], block);
    assert [query, count, block][1..] == [count, block] && [count, block][1..] == [block] && [block][1..] == [];
    assert Occurrences([block], query) == 0 && Occurrences([block], count) == 0 && Occurrences([block], block) == 1;
  }

  /** Requests on a key whose block lasts until `until`, at instants before it, are
      all denied; each makes only the IsBlocked call and changes neither table. */
  method DeniedWhileBlocked(rl: RateLimiter, ip: string, token: string, until: int, instants: seq<int>)
    returns (results: seq<Outcome<LimitResult>>)
    requires forall j | 0 <= j < |instants| :: instants[j] < until
    requires var key := KeyAndLimit(rl.config, ip, token).0; key in rl.storage.blocked && rl.storage.blocked[key] == until
    modifies rl.storage
    ensures |results| == |instants|
    ensures forall j | 0 <= j < |instants| :: results[j] == Ok(Denied(rl.config, instants[j]))
    ensures rl.storage.counts == old(rl.storage.counts) && rl.storage.blocked == old(rl.storage.blocked)
    ensures var key := KeyAndLimit(rl.config, ip, token).0;
      && |rl.storage.log| == |old(rl.storage.log)| + |instants|
      && Occurrences(rl.storage.log, IsBlockedCall(key)) == Occurrences(old(rl.storage.log), IsBlockedCall(key)) + |instants|
      && Occurrences(rl.storage.log, IncrementCall(key, Second)) == Occurrences(old(rl.storage.log), IncrementCall(key, Second))
      && Occurrences(rl.storage.log, SetBlockCall(key, rl.config.blockDuration))
         == Occurrences(old(rl.storage.log), SetBlockCall(key, rl.config.blockDuration))
  {
    var key := KeyAndLimit(rl.config, ip, token).0;
    ghost var query, count, block := IsBlockedCall(key), IncrementCall(key, Second), SetBlockCall(key, rl.config.blockDuration);
    assert [query][1..] == [];
    results := [];
    for i := 0 to |instants|
      invariant |results| == i
      invariant forall j | 0 <= j < i :: results[j] == Ok(Denied(rl.config, instants[j]))
      invariant rl.storage.counts == old(rl.storage.counts) && rl.storage.blocked == old(rl.storage.blocked)
      invariant |rl.storage.log| == |old(rl.storage.log)| + i
      invariant Occurrences(rl.storage.log, query) == Occurrences(old(rl.storage.log), query) + i
      invariant Occurrences(rl.storage.log, count) == Occurrences(old(rl.storage.log), count)
      invariant Occurrences(rl.storage.log, block) == Occurrences(old(rl.storage.log), block)
    {
      ghost var log0 := rl.storage.log;
      var r := rl.CheckLimit(ip, token, instants[i]);
      OccurrencesAppend(log0, [query], query);
      OccurrencesAppend(log0, [query], count);
      OccurrencesAppend(log0, [query], block);
      results := results + [r];
    }
  }

  /** On the in-memory backend a zero block duration never takes effect: under IP
      limit 0, two requests at one instant are both counted and both set the block. */
  method ZeroBlockDuration(now: int) returns (results: seq<Outcome<LimitResult>>, rl: RateLimiter)
    ensures results == [Ok(LimitResult(false, 0, now, true)), Ok(LimitResult(false, 0, now, true))]
    ensures rl.storage.counts == map["ip:" + ClientIP := 2]
    ensures Occurrences(rl.storage.log, SetBlockCall("ip:" + ClientIP, 0)) == 2
  {
    var storage := new InMemoryStorage();
    rl := new RateLimiter.New(storage, Config(0, 5, 0, map[]));
    var key := "ip:" + ClientIP;
    ghost var query, count, block := IsBlockedCall(key), IncrementCall(key, Second), SetBlockCall(key, 0);
    assert [query, count, block][1..] == [count, block] && [count, block][1..] == [block] && [block][1..] == [];
    assert Occurrences([block], block) == 1 && Occurrences([count, block], block) == 1;
    assert Occurrences([query, count, block], block) == 1;
    assert KeyAndLimit(rl.config, ClientIP, "") == (key, 0);
    var r0 := rl.CheckLimit(ClientIP, "", now);
    assert rl.storage.log == [] + [query, count, block] == [query, count, block];
    ghost var log1 := rl.storage.log;
    var r1 := rl.CheckLimit(ClientIP, "", now);
    assert rl.storage.log == log1 + [query, count, block];
    OccurrencesAppend(log1, [query, count, block], block);
    results := [r0, r1];
  }

  /** Three requests from one IP are allowed, with 2, 1 and 0 left; the fourth is denied. */
  method IPBasedRateLimit(now: int) returns (results: seq<Outcome<LimitResult>>)
    ensures |results| == 4
    ensures forall i | 0 <= i < 3 :: results[i] == Ok(AllowedResult(3, i + 1, now))
    ensures results[3] == Ok(LimitResult(false, 0, now + 10 * Second, true))
  {
    var rl := SetupTestLimiter();
    var key := "ip:" + ClientIP;
    results := [];
    for i := 0 to 3
      invariant |results| == i
      invariant forall j | 0 <= j < i :: results[j] == Ok(AllowedResult(3, j + 1, now))
      invariant rl.storage.counts == if i == 0 then map[] else map[key := i]
      invariant rl.storage.blocked == map[]
    {
      var r := rl.CheckLimit(ClientIP, "", now);
      results := results + [r];
    }
    var r := rl.CheckLimit(ClientIP, "", now);
    results := results + [r];
  }

  /** Two requests bearing "test_token" (limit 2) are allowed; the third is denied. */
  method TokenBasedRateLimit(now: int) returns (results: seq<Outcome<LimitResult>>)
    ensures |results| == 3
    ensures forall i | 0 <= i < 2 :: results[i] == Ok(AllowedResult(2, i + 1, now))
    ensures results[2] == Ok(LimitResult(false, 0, now + 10 * Second, true))
  {
    var rl := SetupTestLimiter();
    var key := "token:" + "test_token";
    results := [];
    for i := 0 to 2
      invariant |results| == i
      invariant forall j | 0 <= j < i :: results[j] == Ok(AllowedResult(2, j + 1, now))
      invariant rl.storage.counts == if i == 0 then map[] else map[key := i]
      invariant rl.storage.blocked == map[]
    {
      var r := rl.CheckLimit(ClientIP, "test_token", now);
      results := results + [r];
    }
    var r := rl.CheckLimit(ClientIP, "test_token", now);
    results := results + [r];
  }

  /** Once the IP is blocked, a request from the same IP bearing "test_token" is
      still allowed: it is counted under its own key. */
  method TokenPriorityOverIP(now: int) returns (results: seq<Outcome<LimitResult>>)
    ensures |results| == 5
    ensures forall i | 0 <= i < 3 :: results[i] == Ok(AllowedResult(3, i + 1, now))
    ensures results[3] == Ok(LimitResult(false, 0, now + 10 * Second, true))
    ensures results[4] == Ok(AllowedResult(2, 1, now))
  {
    var rl := SetupTestLimiter();
    var key := "ip:" + ClientIP;
    results := [];
    for i := 0 to 3
      invariant |results| == i
      invariant forall j | 0 <= j < i :: results[j] == Ok(AllowedResult(3, j + 1, now))
      invariant rl.storage.counts == if i == 0 then map[] else map[key := i]
      invariant rl.storage.blocked == map[]
    {
      var r := rl.CheckLimit(ClientIP, "", now);
      results := results + [r];
    }
    var r := rl.CheckLimit(ClientIP, "", now);
    results := results + [r];
    KeySpacesDisjoint(ClientIP, "test_token");
    r := rl.CheckLimit(ClientIP, "test_token", now);
    results := results + [r];
    var closed := rl.Close();
  }

  /** Each of three distinct IPs gets its own three allowed requests, then a denial. */
  method DifferentIPs(now: int) returns (results: seq<seq<Outcome<LimitResult>>>)
    ensures |results| == 3
    ensures forall k | 0 <= k < 3 :: |results[k]| == 4
    ensures forall k, i | 0 <= k < 3 && 0 <= i < 3 :: results[k][i] == Ok(AllowedResult(3, i + 1, now))
    ensures forall k | 0 <= k < 3 :: results[k][3] == Ok(LimitResult(false, 0, now + 10 * Second, true))
  {
    var rl := SetupTestLimiter();
    var ips := ["192.168.1.1", "192.168.1.2", "192.168.1.3"];
    assert forall a, b | 0 <= a < b < 3 :: ("ip:" + ips[a])[13] == ips[a][10] != ips[b][10] == ("ip:" + ips[b])[13];
    results := [];
    for k := 0 to 3
      invariant |results| == k
      invariant forall m | 0 <= m < k :: |results[m]| == 4
      invariant forall m, i | 0 <= m < k && 0 <= i < 3 :: results[m][i] == Ok(AllowedResult(3, i + 1, now))
      invariant forall m | 0 <= m < k :: results[m][3] == Ok(LimitResult(false, 0, now + 10 * Second, true))
      invariant forall m | k <= m < 3 :: "ip:" + ips[m] !in rl.storage.counts && "ip:" + ips[m] !in rl.storage.blocked
    {
      var ip := ips[k];
      var key := "ip:" + ip;
      ghost var counts0, blocked0 := rl.storage.counts, rl.storage.blocked;
      var burst := [];
      for i := 0 to 3
        invariant |burst| == i
        invariant forall j | 0 <= j < i :: burst[j] == Ok(AllowedResult(3, j + 1, now))
        invariant rl.storage.counts == if i == 0 then counts0 else counts0[key := i]
        invariant rl.storage.blocked == blocked0
      {
        var r := rl.CheckLimit(ip, "", now);
        burst := burst + [r];
      }
      var r := rl.CheckLimit(ip, "", now);
      burst := burst + [r];
      results := results + [burst];
    }
  }

  /** A request to a blocked key is denied without being counted; once the block
      has expired, this backend's count (which never resets) is still over the
      limit, so the next request blocks the key again at once. */
  method AfterBlockExpiry(now: int) returns (results: seq<Outcome<LimitResult>>, counted: int)
    ensures |results| == 6
    ensures forall i | 0 <= i < 3 :: results[i] == Ok(AllowedResult(3, i + 1, now))
    ensures results[3] == Ok(LimitResult(false, 0, now + 10 * Second, true))
    ensures results[4] == Ok(LimitResult(false, 0, now + 10 * Second, true))
    ensures results[5] == Ok(LimitResult(false, 0, now + 20 * Second, true))
    ensures counted == 5
  {
    var rl := SetupTestLimiter();
    var key := "ip:" + ClientIP;
    assert KeyAndLimit(rl.config, ClientIP, "") == (key, 3);
    results := [];
    for i := 0 to 3
      invariant |results| == i
      invariant forall j | 0 <= j < i :: results[j] == Ok(AllowedResult(3, j + 1, now))
      invariant rl.storage.counts == if i == 0 then map[] else map[key := i]
      invariant rl.storage.blocked == map[]
    {
      var r := rl.CheckLimit(ClientIP, "", now);
      results := results + [r];
    }
    var r := rl.CheckLimit(ClientIP, "", now);
    results := results + [r];
    r := rl.CheckLimit(ClientIP, "", now);
    results := results + [r];
    r := rl.CheckLimit(ClientIP, "", now + 10 * Second);
    results := results + [r];
    var count := rl.storage.Get(key);
    counted := count.value;
  }
}
