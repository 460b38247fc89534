# Rate limiter decision engine, in Dafny

This project models the core of a Go HTTP rate limiter and proves properties of the model.

The engine takes a request's identity, meaning a client IP and an optional access token. It resolves the identity to a namespaced key (`ip:<addr>` or `token:<value>`) and a limit. It then asks a storage backend whether the key is blocked, counts the request, and blocks the key once its count exceeds the limit. The model covers:

- the engine (`RateLimiting`, from `pkg/ratelimiter/rate_limiter.go`);
- the storage contract it depends on (`Storage`, from `pkg/ratelimiter/storage.go`);
- the in-memory backend of the integration tests (`MemoryStorage`, from `test/integration_test.go`);
- the integration scenarios (`Integration`);
- the configuration loader's parsing (`Configuration`, from `internal/config/config.go`).

Design of the model:

- **Time.** Instants and durations are integers counted in nanoseconds, as Go's `time.Duration` is. `Storage.Second` is 1 000 000 000. The wall clock becomes a parameter `now`. One check reads one instant, so `ResetTime` is `now + blockDuration` or `now + Second`.
- **Errors.** A storage error is the single case `Unavailable` of `Outcome<T>`. The wrapping messages are dropped.
- **The storage interface.** It is written without a Dafny trait. `RateLimiting.Decide` states the protocol for any backend. It is a function of the backend's three replies, which are arbitrary, so failures are included. It returns the calls made, in order, and the result. `RateLimiting.RateLimiter.CheckLimit` runs the same protocol on the in-memory backend. Its contract proves that its result, and the calls recorded in the backend's ghost `log`, are those of `Decide` applied to that backend's replies.
- **The environment.** It is passed in as data. `os.Getenv` becomes a `map<string, string>` in which an absent name reads as `""`. `os.Environ` becomes a `seq<string>` of `NAME=VALUE` entries.

Three members go beyond the Go tests:

- `Integration.FreshKeySequence` states the sequence of decisions for every policy and every requester, not only for the tests' limits of 3 and 2.
- `Integration.AfterBlockExpiry` concerns a key whose block has expired. A rate limiter is meant to treat such a key as fresh, but the in-memory backend does not. It ignores the counting window, so its counts never reset and a key stays over its limit for good.
- `Integration.ZeroBlockDuration` concerns a block duration of 0, which the configuration yields for `BLOCK_DURATION_SECONDS=0` or for an unparsable value. On the in-memory backend the block then never takes effect: every over-limit request is counted and sets the block again, instead of setting it once per excess.

## Model

| member | source | states |
|---|---|---|
| `RateLimiting.KeyResolution` | pkg/ratelimiter/rate_limiter.go:101-113 | With a non-empty token, the key is `token:`+token and the limit is that token's override if present, else the default token limit, whatever the IP. With an empty token, the key is `ip:`+ip and the limit is the default IP limit. |
| `RateLimiting.KeySpacesDisjoint` | pkg/ratelimiter/rate_limiter.go:105-112 | An `ip:` key never equals a `token:` key, for any strings. |
| `RateLimiting.KeysIdentifyRequester` | pkg/ratelimiter/rate_limiter.go:101-113 | Two requests get the same key if and only if they carry the same non-empty token, or no token and the same IP. Distinct IPs and distinct tokens are never counted together. |
| `RateLimiting.KeyAndLimit` | pkg/ratelimiter/rate_limiter.go:101-113 | A non-empty token gives a key that is `token:` followed by exactly the token, and an empty token gives `ip:` followed by exactly the IP, so the requester can be read back from the key. A token's override wins over the default token limit, and the IP limit applies only when there is no token. |
| `RateLimiting.Decide` | pkg/ratelimiter/rate_limiter.go:46-97 | For any backend replies: the calls made are a prefix of IsBlocked, Increment(key, 1s), SetBlock(key, blockDuration) on the resolved key, so each happens at most once and in that order. An error comes back exactly when the last call made failed, and no call follows a failure. Increment happens if and only if IsBlocked answered false. SetBlock happens if and only if the count exceeds the limit. The request is allowed if and only if the key was not blocked and the count is within the limit. Every successful result has `allowed == !blocked` and `remaining >= 0`. |
| `RateLimiting.BlockedShortCircuits` | pkg/ratelimiter/rate_limiter.go:56-63 | A key reported blocked is denied with remaining 0 and blocked true, and IsBlocked is the only call. |
| `RateLimiting.OverLimitBlocks` | pkg/ratelimiter/rate_limiter.go:72-84 | A count over the limit makes exactly the three calls, and SetBlock gets the configured duration. The result is a denial with remaining 0 if SetBlock succeeds, and the error if it fails. |
| `RateLimiting.WithinLimitAllows` | pkg/ratelimiter/rate_limiter.go:86-96 | A count within the limit gives allowed true, blocked false, remaining `limit - count` and reset `now + 1s`. The clamp at 0 never changes that value. |
| `RateLimiting.UnitTestCases` | pkg/ratelimiter/rate_limiter_test.go:42-196 | The unit tests' cases, under their policy of 10 per IP, 100 per token and `abc123` limited to 50. Key resolution: the IP gets limit 10, `abc123` its override of 50, and `xyz789` the default of 100. Checks against the mocked backend: count 5 of 10 leaves 5, count 25 of 50 leaves 25, counts 11 and 51 block, and an already-blocked key is denied after one call. |
| `RateLimiting.RateLimiter.New` | pkg/ratelimiter/rate_limiter.go:35-43 | The engine keeps the given backend and policy, and they never change afterwards (they are `const` fields). |
| `RateLimiting.RateLimiter.CheckLimit` | pkg/ratelimiter/rate_limiter.go:46-97 | The result is `Decide`'s on the in-memory backend's replies, and the backend's call log grows by exactly `Decide`'s calls. The counts change only at the resolved key, and only when it was not blocked. The block table gets `now + blockDuration` at that key when the count exceeds the limit; otherwise it is left as the IsBlocked query left it. |
| `RateLimiting.RateLimiter.Close` | pkg/ratelimiter/rate_limiter.go:116-118 | Passes on the backend's answer to Close. |
| `MemoryStorage.InMemoryStorage.constructor` | test/integration_test.go:22-27 | A new backend has empty counts and blocks. |
| `MemoryStorage.InMemoryStorage.Increment` | test/integration_test.go:29-32 | Adds 1 to the count of the key (an absent key counts as 0) and returns the new count. No other key and no block changes, the window is ignored, and it never fails. |
| `MemoryStorage.InMemoryStorage.Get` | test/integration_test.go:34-36 | Returns the key's count, or 0 when absent, and changes nothing (it has no `modifies` clause). |
| `MemoryStorage.InMemoryStorage.SetBlock` | test/integration_test.go:38-41 | Sets the key's block expiry to `now + duration`, overwriting any earlier entry. Counts are untouched. |
| `MemoryStorage.InMemoryStorage.IsBlocked` | test/integration_test.go:43-51 | Answers true if and only if an entry exists and `now` is strictly before it. An expired entry for the key is deleted, including one that expires exactly at `now`. |
| `MemoryStorage.InMemoryStorage.Close` | test/integration_test.go:53-55 | Never fails. |
| `MemoryStorage.AfterQuery` | test/integration_test.go:43-51 | The block table after a query has the same answer for the key. It keeps the key if and only if the block is active, and leaves every other key and value as it was. |
| `MemoryStorage.QueryIdempotent` | test/integration_test.go:43-51 | Repeating an IsBlocked query changes nothing more. |
| `MemoryStorage.BlockExpires` | test/integration_test.go:38-51 | A block set at `now` for `d` is active exactly at instants before `now + d`. From then on a query drops it. |
| `Integration.SetupTestLimiter` | test/integration_test.go:57-78 | A fresh engine over a fresh empty backend, with IP limit 3, token limit 5, a 10 s block and `test_token` limited to 2. |
| `Integration.IPBasedRateLimit` | test/integration_test.go:80-103 | Three requests from one IP are allowed, leaving 2, 1 and 0. The fourth is denied and blocked. |
| `Integration.TokenBasedRateLimit` | test/integration_test.go:105-129 | Two `test_token` requests are allowed and the third is denied. |
| `Integration.TokenPriorityOverIP` | test/integration_test.go:131-166 | After the IP has been blocked, a `test_token` request from the same IP is allowed with 1 left. |
| `Integration.DifferentIPs` | test/integration_test.go:168-194 | Each of three distinct IPs gets three allowed requests and then a denial. |
| `Integration.AfterBlockExpiry` | test/integration_test.go:29-51 | A request to a blocked key is denied and not counted. After the block expires, the never-reset count blocks the key again at once, and the count is 5 after six requests. |
| `Integration.FreshKeySequence` | test/integration_test.go:80-129 | For any policy and any requester, on a fresh backend with limit L: the first max(L, 0) requests, all at `now`, are allowed, leaving L-1 down to 0. The next request, also at `now`, is denied and blocked. Every later request at an instant from `now` up to but excluding `now + blockDuration` is denied and not counted. The call log has one IsBlocked per request, an Increment for each of the first max(L, 0)+1 requests only, exactly one SetBlock, and nothing else. |
| `Integration.AllowedRequests` | pkg/ratelimiter/rate_limiter.go:56-97 | On a fresh key, `n` requests at one instant, with `n` at most the limit, are all allowed, leaving L-1 down to L-n. The key's count becomes `n`, nothing is blocked, and the log has one IsBlocked and one Increment per request. |
| `Integration.BlockingRequest` | pkg/ratelimiter/rate_limiter.go:65-84 | The request that takes a key's count past its limit is denied. It raises the count by one, blocks the key until `now + blockDuration`, and adds one IsBlocked, one Increment and one SetBlock to the log. |
| `Integration.DeniedWhileBlocked` | pkg/ratelimiter/rate_limiter.go:50-63 | Every request to a key blocked until `until`, at any instant before `until`, is denied. The counts and blocks are unchanged, and the log gains exactly one IsBlocked per request. |
| `Integration.ZeroBlockDuration` | pkg/ratelimiter/rate_limiter.go:56-84 | On the in-memory backend, with IP limit 0 and a zero block duration, two requests at one instant are both denied. Both are still counted (the count ends at 2), and both call SetBlock, because the first block has already expired when the second request asks. |
| `Configuration.OsGetenv` | internal/config/config.go:67 | Reads `""` if and only if the variable is unset or set to the empty string, and otherwise reads its value. |
| `Configuration.GetEnv` | internal/config/config.go:66-71 | Returns the variable's value when it is set and non-empty, and the default otherwise. A set-but-empty value is treated as unset. |
| `Configuration.ParseInt` | internal/config/config.go:87 | Succeeds if and only if an optional sign is followed by at least one decimal digit. The sign of the result follows the sign character. |
| `Configuration.ParseFormatRoundTrip` | internal/config/config.go:40-43 | Parsing the decimal form of any integer gives that integer back. |
| `Configuration.SplitEntry` | internal/config/config.go:77-83 | Splits if and only if the entry has an `=`. The split is at the first `=`: the name has none, and name + `=` + value is the entry. |
| `Configuration.SplitJoinRoundTrip` | internal/config/config.go:77-83 | Splitting name + `=` + value, for a name without `=`, gives back the name and the value, even when the value contains `=`. |
| `Configuration.HasPrefix` | internal/config/config.go:85 | True if and only if the string is at least as long as the prefix and agrees with it character by character. |
| `Configuration.HasSuffix` | internal/config/config.go:85 | True if and only if the string is at least as long as the suffix and its last characters agree with it one by one. |
| `Configuration.TrimPrefix` | internal/config/config.go:86 | Removes the prefix when present, and otherwise returns the string unchanged. |
| `Configuration.TrimSuffix` | internal/config/config.go:86 | Removes the suffix when present, and otherwise returns the string unchanged. |
| `Configuration.TokenEntry` | internal/config/config.go:77-89 | An entry contributes only if it has an `=`, its name has the `TOKEN_` prefix and the `_LIMIT` suffix, and its value parses as an integer. The contributed limit is that value. |
| `Configuration.TokenEntryOfName` | internal/config/config.go:85-89 | `TOKEN_<name>_LIMIT=<v>` yields exactly `<name>` with `<v>`'s value, for every name without `=`, and yields nothing when `<v>` is not an integer. |
| `Configuration.TokenLimits` | internal/config/config.go:73-94 | Every limit in the token table is the limit that some entry gives that token. Which tokens appear, and which entry wins, are proved by `TokenLimitsDomain` and `TokenLimitsLastWins`. |
| `Configuration.OverlappingAffixes` | internal/config/config.go:85-86 | `TOKEN_LIMIT=<v>` yields the token `LIMIT` with `<v>`'s value, because the prefix is trimmed first, and yields nothing when `<v>` is not an integer. |
| `Configuration.LoadTokenConfig` | internal/config/config.go:73-94 | The loop over the entries builds exactly the table `TokenLimits` of the entries, applied in order. |
| `Configuration.GivenByPrefix` | internal/config/config.go:76-91 | A token limit that some entry among the earlier entries gives is still given by some entry once one more entry is appended. |
| `Configuration.TokenLimitsStep` | internal/config/config.go:76-91 | One more entry adds its token name, if any, to the table's domain. |
| `Configuration.TokenLimitsValueStep` | internal/config/config.go:87-89 | A token's limit after one more entry is that entry's limit when the entry names the token, and otherwise the limit from the earlier entries. |
| `Configuration.TokenLimitsDomain` | internal/config/config.go:76-91 | A token has a limit if and only if some entry names it. |
| `Configuration.TokenLimitsLastWins` | internal/config/config.go:87-89 | A later entry with the same name overwrites an earlier one: the last entry that names a token decides its limit. |
| `Configuration.AtoiOrZero` | internal/config/config.go:40-43 | The parsed value, or 0 when parsing fails, because the error is discarded. |
| `Configuration.RedisSettings` | internal/config/config.go:40-50 | Host, port and password are the variable's value when it is set and non-empty, and otherwise `localhost`, `6379` and the empty string. The database number is the parsed value of `REDIS_DB` (0 if it does not parse), or 0 when unset. |
| `Configuration.RateLimitSettings` | internal/config/config.go:41-59 | Each limit is the parsed setting (0 if it does not parse) when it is set and non-empty, and otherwise 10 per IP and 100 per token. The block duration is the seconds setting, or 300 when unset, times one second. |
| `Configuration.Load` | internal/config/config.go:36-64 | Assembles the Redis, server and rate-limit settings from the variables and the token table from the entries. It never fails. |
| `Configuration.DefaultLimits` | internal/config/config.go:41-43 | With nothing set, the limits are 10 per IP and 100 per token, and a block lasts 300 seconds. |
| `Configuration.UnparsableSettingIsZero` | internal/config/config.go:40-43 | Each of the four numeric settings (`REDIS_DB`, `DEFAULT_IP_LIMIT`, `DEFAULT_TOKEN_LIMIT`, `BLOCK_DURATION_SECONDS`) that is set but is not an integer becomes 0, not its default. |

## Left out

- The storage interface as a polymorphic type: Dafny traits are not used. The engine's behaviour against an arbitrary backend is stated by `RateLimiting.Decide` over arbitrary replies. The method `CheckLimit` is bound to the one concrete backend, `InMemoryStorage`. With that backend no call ever fails, so the method's error branches are present but unreachable.
- The backend contract's atomicity and window expiry: the Redis backend (`pkg/ratelimiter/redis_storage.go`) is not part of this model. Its atomic increment-with-expiry and its key time-to-live are guarantees of the Redis server. The storage contract's comment on `Increment` also mentions a "key existed before" result, but the signature does not return one, so it is not modelled.
- The Redis backend's handling of a zero or negative block duration: only the in-memory backend is modelled, and on it such a block is already expired when set. Redis may treat a zero expiry differently, and that treatment is not part of this model.
- Concurrency: only single-threaded sequences of checks are modelled. The engine holds no locks and relies on the backend for atomicity.
- Wall-clock time: the clock is the parameter `now`. The Go code reads the clock separately in `CheckLimit` and in the backend; the model uses one instant per check.
- `context.Context`, the `fmt.Errorf` messages, and the `*LimitResult`/`nil` pointer pairing: the pairing becomes `Outcome<LimitResult>`.
- The HTTP middleware (`internal/middleware/rate_limiter.go`) and the wiring in `cmd/main.go`: these are transport and start-up code. The scenarios call `CheckLimit` directly with the IP that the middleware would extract from `RemoteAddr`. "Status 200" reads as "allowed", and "status 429" as "denied".
- `godotenv.Load`, `os.Getenv` and `os.Environ`: the environment is passed in as data.
- `Configuration.ParseInt`: does not model `strconv.Atoi`'s 64-bit range error. Integers are unbounded.
- Go's `int64`-to-`int` conversions and overflow: all integers are unbounded.
