/** Configuration loading (internal/config/config.go). The process environment is
    passed in as data: `vars` answers `os.Getenv` (an absent name reads as ""),
    and `environ` is the list of "NAME=VALUE" entries `os.Environ` returns. */
module Configuration {
  import Storage

  datatype Option<+T> = None | Some(value: T)

  // ---------------------------------------------------------------------------
  // strconv.Atoi, as an optional sign followed by one or more decimal digits

  predicate IsDigit(c: char)
  {
    '0' <= c <= '9'
  }

  predicate AllDigits(s: string)
  {
    forall i | 0 <= i < |s| :: IsDigit(s[i])
  }

  /** The value of a string of decimal digits, most significant first. */
  function DigitsValue(s: string): nat
    requires AllDigits(s)
  {
    if |s| == 0 then 0 else DigitsValue(s[..|s| - 1]) * 10 + (s[|s| - 1] as int - '0' as int)
  }

  /** The digits that follow an optional leading '+' or '-'. */
  function Unsigned(s: string): string
  {
    if |s| > 0 && (s[0] == '+' || s[0] == '-') then s[1..] else s
  }

  /** `strconv.Atoi` without its 64-bit range check: `None` is its error. */
  function ParseInt(s: string): (r: Option<int>)
    ensures r.Some? <==> |Unsigned(s)| > 0 && AllDigits(Unsigned(s))
    ensures r.Some? && |s| > 0 && s[0] == '-' ==> r.value <= 0
    ensures r.Some? && !(|s| > 0 && s[0] == '-') ==> r.value >= 0
  {
    var digits := Unsigned(s);
    if |digits| == 0 || !AllDigits(digits) then None
    else
      var magnitude: int := DigitsValue(digits);
      if s[0] == '-' then Some(-magnitude) else Some(magnitude)
  }

  /** Decimal digits of a natural number, without leading zeros. */
  function FormatNat(n: nat): (s: string)
    ensures |s| > 0 && AllDigits(s)
  {
    var d := ['0' + (n % 10) as char];
    if n < 10 then d else FormatNat(n / 10) + d
  }

  /** The canonical decimal form of an integer, as `strconv.Itoa` writes it. */
  function FormatInt(n: int): string
  {
    if n < 0 then "-" + FormatNat(-n) else FormatNat(n)
  }

  lemma {:induction false} DigitsOfFormatNat(n: nat)
    ensures DigitsValue(FormatNat(n)) == n
  {
    var s := FormatNat(n);
    if n >= 10 {
      DigitsOfFormatNat(n / 10);
      assert s[..|s| - 1] == FormatNat(n / 10);
    }
  }

  /** Parsing undoes formatting, for every integer. */
  lemma ParseFormatRoundTrip(n: int)
    ensures ParseInt(FormatInt(n)) == Some(n)
  {
    var s := FormatInt(n);
    if n < 0 {
      var digits := FormatNat(-n);
      DigitsOfFormatNat(-n);
      assert s[0] == '-' && s[1..] == digits;
      assert Unsigned(s) == digits;
    } else {
      DigitsOfFormatNat(n);
      assert IsDigit(s[0]);
      assert Unsigned(s) == s;
    }
  }

  // ---------------------------------------------------------------------------
  // strings.SplitN(entry, "=", 2), strings.HasPrefix/HasSuffix/TrimPrefix/TrimSuffix

  /** Splits at the first '='; `None` when there is no '=' (SplitN gives one part). */
  function SplitEntry(entry: string): (r: Option<(string, string)>)
    ensures r.Some? <==> '=' in entry
    ensures r.Some? ==> '=' !in r.value.0 && entry == r.value.0 + "=" + r.value.1
  {
    if |entry| == 0 then None
    else if entry[0] == '=' then Some(("", entry[1..]))
    else
      match SplitEntry(entry[1..])
      case None => None
      case Some((key, value)) => Some(([entry[0]] + key, value))
  }

  /** Splitting a name without '=' joined to its value by '=' gives both back. */
  lemma {:induction false} SplitJoinRoundTrip(name: string, value: string)
    requires '=' !in name
    ensures SplitEntry(name + "=" + value) == Some((name, value))
  {
    var entry := name + "=" + value;
    if name != [] {
      assert name[0] in name;
      assert entry[0] == name[0] && entry[1..] == name[1..] + "=" + value;
      assert forall c | c in name[1..] :: c in name;
      SplitJoinRoundTrip(name[1..], value);
      assert [name[0]] + name[1..] == name;
    }
  }

  /** `strings.HasPrefix`: `s` begins with `prefix`, character by character. */
  function HasPrefix(s: string, prefix: string): (b: bool)
    ensures b <==> |prefix| <= |s| && forall i | 0 <= i < |prefix| :: s[i] == prefix[i]
  {
    |prefix| <= |s| && s[..|prefix|] == prefix
  }

  /** `strings.HasSuffix`: `s` ends with `suffix`, character by character. */
  function HasSuffix(s: string, suffix: string): (b: bool)
    ensures b <==> |suffix| <= |s| && forall i | 0 <= i < |suffix| :: s[|s| - |suffix| + i] == suffix[i]
  {
    |suffix| <= |s| && s[|s| - |suffix|..] == suffix
  }

  function TrimPrefix(s: string, prefix: string): (r: string)
    ensures HasPrefix(s, prefix) ==> prefix + r == s
    ensures !HasPrefix(s, prefix) ==> r == s
  {
    if HasPrefix(s, prefix) then s[|prefix|..] else s
  }

  function TrimSuffix(s: string, suffix: string): (r: string)
    ensures HasSuffix(s, suffix) ==> r + suffix == s
    ensures !HasSuffix(s, suffix) ==> r == s
  {
    if HasSuffix(s, suffix) then s[..|s| - |suffix|] else s
  }

  // ---------------------------------------------------------------------------
  // loadTokenConfig

  const TokenPrefix := "TOKEN_"
  const LimitSuffix := "_LIMIT"

  /** What one environment entry contributes to the token table: the token name
      (prefix trimmed first, then suffix) and its limit, or nothing when the entry
      has no '=', its name lacks the prefix or the suffix, or its value is not an integer. */
  function TokenEntry(entry: string): (r: Option<(string, int)>)
    ensures r.Some? ==> SplitEntry(entry).Some?
    ensures r.Some? ==> HasPrefix(SplitEntry(entry).value.0, TokenPrefix) && HasSuffix(SplitEntry(entry).value.0, LimitSuffix)
    ensures r.Some? ==> ParseInt(SplitEntry(entry).value.1) == Some(r.value.1)
  {
    match SplitEntry(entry)
    case None => None
    case Some((key, value)) =>
      if HasPrefix(key, TokenPrefix) && HasSuffix(key, LimitSuffix) then
        match ParseInt(value)
        case None => None
        case Some(limit) => Some((TrimSuffix(TrimPrefix(key, TokenPrefix), LimitSuffix), limit))
      else None
  }

  /** Whether `entry` contributes a limit for the token `name`. */
  predicate Names(entry: string, name: string)
  {
    TokenEntry(entry).Some? && TokenEntry(entry).value.0 == name
  }

  /** Whether some entry of `environ` gives the token `name` the limit `limit`. */
  predicate GivenBy(environ: seq<string>, name: string, limit: int)
  {
    exists i | 0 <= i < |environ| :: TokenEntry(environ[i]) == Some((name, limit))
  }

  /** A limit some entry gives stays given when more entries follow. */
  lemma GivenByPrefix(environ: seq<string>)
    requires |environ| > 0
    ensures forall name, limit | GivenBy(environ[..|environ| - 1], name, limit) :: GivenBy(environ, name, limit)
  {
    var init := environ[..|environ| - 1];
    forall name, limit | GivenBy(init, name, limit) ensures GivenBy(environ, name, limit) {
      var i :| 0 <= i < |init| && TokenEntry(init[i]) == Some((name, limit));
      assert environ[i] == init[i];
    }
  }

  /** The token table built from `environ`, entries applied in order. */
  function TokenLimits(environ: seq<string>): (tokens: map<string, int>)
    // every limit in the table is the one some entry gives its token
    ensures forall name {:trigger GivenBy(environ, name, tokens[name])} | name in tokens :: GivenBy(environ, name, tokens[name])
  {
    if |environ| == 0 then map[]
    else
      var tokens := TokenLimits(environ[..|environ| - 1]);
      GivenByPrefix(environ);
      match TokenEntry(environ[|environ| - 1])
      case None => tokens
      case Some((name, limit)) => tokens[name := limit]
  }

  /** `loadTokenConfig`, over the given environment entries. */
  method LoadTokenConfig(environ: seq<string>) returns (tokens: map<string, int>)
    ensures tokens == TokenLimits(environ)
  {
    tokens := map[];
    for i := 0 to |environ|
      invariant tokens == TokenLimits(environ[..i])
    {
      assert environ[..i + 1][..i] == environ[..i];
      var pair := SplitEntry(environ[i]);
      if pair.None? {
        continue;
      }
      var (key, value) := pair.value;
      if HasPrefix(key, TokenPrefix) && HasSuffix(key, LimitSuffix) {
        var tokenName := TrimSuffix(TrimPrefix(key, TokenPrefix), LimitSuffix);
        var limit := ParseInt(value);
        if limit.Some? {
          tokens := tokens[tokenName := limit.value];
        }
      }
    }
    assert environ[..|environ|] == environ;
  }

  /** Appending one entry adds its token name, if any, to the table's domain. */
  lemma TokenLimitsStep(environ: seq<string>, name: string)
    requires |environ| > 0
    ensures name in TokenLimits(environ)
      <==> name in TokenLimits(environ[..|environ| - 1]) || Names(environ[|environ| - 1], name)
  {
  }

  /** Appending one entry that names a token sets that token's limit; any other entry
      leaves the token's limit as it was. */
  lemma TokenLimitsValueStep(environ: seq<string>, name: string)
    requires |environ| > 0 && name in TokenLimits(environ)
    ensures var last := environ[|environ| - 1];
      TokenLimits(environ)[name]
      == if Names(last, name) then TokenEntry(last).value.1 else TokenLimits(environ[..|environ| - 1])[name]
  {
  }

  /** A token has a limit exactly when some entry names it. */
  lemma {:induction false} TokenLimitsDomain(environ: seq<string>, name: string)
    ensures name in TokenLimits(environ) <==> exists i | 0 <= i < |environ| :: Names(environ[i], name)
  {
    if |environ| > 0 {
      var n := |environ| - 1;
      var init := environ[..n];
      TokenLimitsStep(environ, name);
      TokenLimitsDomain(init, name);
      assert forall i | 0 <= i < n :: init[i] == environ[i];
      if name in TokenLimits(environ) {
        if !Names(environ[n], name) {
          var i :| 0 <= i < n && Names(init[i], name);
          assert Names(environ[i], name);
        }
      } else {
        assert !Names(environ[n], name);
        forall i | 0 <= i < |environ| ensures !Names(environ[i], name) {
          if i < n {
            assert !Names(init[i], name);
            assert environ[i] == init[i];
          } else {
            assert i == n;
          }
        }
      }
    }
  }

  /** The last entry that names a token decides its limit. */
  lemma {:induction false} TokenLimitsLastWins(environ: seq<string>, i: nat, name: string, limit: int)
    requires i < |environ| && TokenEntry(environ[i]) == Some((name, limit))
    requires forall j | i < j < |environ| :: !Names(environ[j], name)
    ensures name in TokenLimits(environ) && TokenLimits(environ)[name] == limit
  {
    var init := environ[..|environ| - 1];
    TokenLimitsStep(environ, name);
    if i < |environ| - 1 {
      forall j | i < j < |init| ensures !Names(init[j], name) {
        assert init[j] == environ[j];
      }
      assert init[i] == environ[i];
      TokenLimitsLastWins(init, i, name, limit);
    }
    TokenLimitsValueStep(environ, name);
  }

  /** An entry "TOKEN_<name>_LIMIT=<value>" sets the limit of <name> when <value> is
      an integer, for every name without '='. */
  lemma TokenEntryOfName(name: string, value: string)
    requires '=' !in name
    ensures TokenEntry(TokenPrefix + name + LimitSuffix + "=" + value)
      == match ParseInt(value) case Some(limit) => Some((name, limit)) case None => None
  {
    var key := TokenPrefix + name + LimitSuffix;
    assert '=' !in key by {
      assert forall i | 0 <= i < |key| :: key[i] == (TokenPrefix + (name + LimitSuffix))[i];
    }
    assert key + "=" + value == TokenPrefix + name + LimitSuffix + "=" + value;
    SplitJoinRoundTrip(key, value);
    assert key[..|TokenPrefix|] == TokenPrefix;
    assert key[|key| - |LimitSuffix|..] == LimitSuffix;
    assert TrimPrefix(key, TokenPrefix) == name + LimitSuffix;
    assert (name + LimitSuffix)[|name + LimitSuffix| - |LimitSuffix|..] == LimitSuffix;
    assert TrimSuffix(name + LimitSuffix, LimitSuffix) == name;
  }

  /** The prefix and the suffix may overlap: "TOKEN_LIMIT" names the token "LIMIT",
      because the prefix is trimmed first and "LIMIT" then lacks the suffix. This is
      the one name with both affixes that is not of the form "TOKEN_<name>_LIMIT". */
  lemma OverlappingAffixes(value: string)
    ensures TokenEntry("TOKEN_LIMIT=" + value)
      == match ParseInt(value) case Some(limit) => Some(("LIMIT", limit)) case None => None
  {
    SplitJoinRoundTrip("TOKEN_LIMIT", value);
    assert "TOKEN_LIMIT=" + value == "TOKEN_LIMIT" + "=" + value;
    assert "TOKEN_LIMIT"[..6] == TokenPrefix;
    assert "TOKEN_LIMIT"[5..] == LimitSuffix;
    assert TrimPrefix("TOKEN_LIMIT", TokenPrefix) == "LIMIT";
    assert !HasSuffix("LIMIT", LimitSuffix);
  }

  // ---------------------------------------------------------------------------
  // getEnv and Load

  /** Whether `name` is unset or set to the empty string. */
  predicate Unset(vars: map<string, string>, name: string)
  {
    name !in vars || vars[name] == ""
  }

  /** `os.Getenv`: the value of `name`, or "" when it is unset. */
  function OsGetenv(vars: map<string, string>, name: string): (r: string)
    ensures r == "" <==> Unset(vars, name)
    ensures !Unset(vars, name) ==> r == vars[name]
  {
    if name in vars then vars[name] else ""
  }

  /** `getEnv`: the variable's value when it is non-empty, else the default;
      a variable set to "" counts as unset. */
  function GetEnv(vars: map<string, string>, name: string, default: string): (r: string)
    ensures name in vars && vars[name] != "" ==> r == vars[name]
    ensures (name !in vars || vars[name] == "") ==> r == default
  {
    var value := OsGetenv(vars, name);
    if value != "" then value else default
  }

  /** The result of `strconv.Atoi` with its error discarded: 0 on failure. */
  function AtoiOrZero(s: string): (n: int)
    ensures ParseInt(s).Some? ==> n == ParseInt(s).value
    ensures ParseInt(s).None? ==> n == 0
  {
    match ParseInt(s)
    case Some(n) => n
    case None => 0
  }

  datatype RedisConfig = RedisConfig(host: string, port: string, password: string, db: int)
  datatype ServerConfig = ServerConfig(port: string)
  datatype RateLimitConfig = RateLimitConfig(defaultIPLimit: int, defaultTokenLimit: int, blockDuration: int)
  datatype AppConfig = AppConfig(redis: RedisConfig, server: ServerConfig, rateLimit: RateLimitConfig, tokens: map<string, int>)

  /** The Redis settings: each string setting when set and non-empty, else its default;
      the database number parsed, or 0. */
  function RedisSettings(vars: map<string, string>): (r: RedisConfig)
    ensures r.host == if Unset(vars, "REDIS_HOST") then "localhost" else vars["REDIS_HOST"]
    ensures r.port == if Unset(vars, "REDIS_PORT") then "6379" else vars["REDIS_PORT"]
    ensures r.password == if Unset(vars, "REDIS_PASSWORD") then "" else vars["REDIS_PASSWORD"]
    ensures r.db == if Unset(vars, "REDIS_DB") then 0 else AtoiOrZero(vars["REDIS_DB"])
  {
    assert ParseInt("0") == Some(0) by {
      assert "0"[..0] == "";
    }
    RedisConfig(GetEnv(vars, "REDIS_HOST", "localhost"), GetEnv(vars, "REDIS_PORT", "6379"),
                GetEnv(vars, "REDIS_PASSWORD", ""), AtoiOrZero(GetEnv(vars, "REDIS_DB", "0")))
  }

  /** The numeric limits: each setting parsed when set and non-empty (0 when it does not
      parse), else its default; the block duration is the seconds setting times one second. */
  function RateLimitSettings(vars: map<string, string>): (r: RateLimitConfig)
    ensures r.defaultIPLimit == if Unset(vars, "DEFAULT_IP_LIMIT") then 10 else AtoiOrZero(vars["DEFAULT_IP_LIMIT"])
    ensures r.defaultTokenLimit == if Unset(vars, "DEFAULT_TOKEN_LIMIT") then 100 else AtoiOrZero(vars["DEFAULT_TOKEN_LIMIT"])
    ensures r.blockDuration
      == (if Unset(vars, "BLOCK_DURATION_SECONDS") then 300 else AtoiOrZero(vars["BLOCK_DURATION_SECONDS"])) * Storage.Second
  {
    assert ParseInt("10") == Some(10) && ParseInt("100") == Some(100) && ParseInt("300") == Some(300) by {
      assert "10"[..1] == "1" && "100"[..2] == "10" && "300"[..2] == "30" && "30"[..1] == "3";
      assert "1"[..0] == "" && "3"[..0] == "";
    }
    RateLimitConfig(AtoiOrZero(GetEnv(vars, "DEFAULT_IP_LIMIT", "10")),
                    AtoiOrZero(GetEnv(vars, "DEFAULT_TOKEN_LIMIT", "100")),
                    AtoiOrZero(GetEnv(vars, "BLOCK_DURATION_SECONDS", "300")) * Storage.Second)
  }

  /** `Load`: assembles the configuration; it never fails. */
  method Load(vars: map<string, string>, environ: seq<string>) returns (cfg: AppConfig)
    ensures cfg.redis == RedisSettings(vars)
    ensures cfg.server == ServerConfig(GetEnv(vars, "SERVER_PORT", "8080"))
    ensures cfg.rateLimit == RateLimitSettings(vars)
    ensures cfg.tokens == TokenLimits(environ)
  {
    var tokens := LoadTokenConfig(environ);
    cfg := AppConfig(RedisSettings(vars), ServerConfig(GetEnv(vars, "SERVER_PORT", "8080")), RateLimitSettings(vars), tokens);
  }

  /** With nothing set, the limits are 10 per IP and 100 per token, and a block
      lasts 300 seconds. */
  lemma DefaultLimits(vars: map<string, string>)
    requires Unset(vars, "DEFAULT_IP_LIMIT") && Unset(vars, "DEFAULT_TOKEN_LIMIT") && Unset(vars, "BLOCK_DURATION_SECONDS")
    ensures RateLimitSettings(vars) == RateLimitConfig(10, 100, 300 * Storage.Second)
  {
  }

  /** Each numeric setting that is set but is not an integer becomes 0, not its default,
      because `Atoi`'s error is discarded. */
  lemma UnparsableSettingIsZero(vars: map<string, string>, name: string)
    requires !Unset(vars, name) && ParseInt(vars[name]).None?
    ensures name == "REDIS_DB" ==> RedisSettings(vars).db == 0
    ensures name == "DEFAULT_IP_LIMIT" ==> RateLimitSettings(vars).defaultIPLimit == 0
    ensures name == "DEFAULT_TOKEN_LIMIT" ==> RateLimitSettings(vars).defaultTokenLimit == 0
    ensures name == "BLOCK_DURATION_SECONDS" ==> RateLimitSettings(vars).blockDuration == 0
  {
  }
}
