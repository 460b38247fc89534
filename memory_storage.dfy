/** The in-memory backend of the integration tests (test/integration_test.go):
    two maps, a request count per key and a block expiry per key. It never
    fails, ignores the counting window (counts never reset), and reads the
    clock, which here is the explicit parameter `now`. */
module MemoryStorage {
  import opened Storage

  /** The stored count for `key`; an absent key counts as 0, as a Go map read does. */
  function CountOf(counts: map<string, int>, key: string): int
  {
    if key in counts then counts[key] else 0
  }

  /** Whether `key` has a block entry that has not yet expired at `now`. */
  predicate ActiveBlock(blocked: map<string, int>, key: string, now: int)
  {
    key in blocked && now < blocked[key]
  }

  /** The block table after `IsBlocked(key)` at `now`: an expired entry for `key`
      (including one that expires exactly at `now`) is deleted; nothing else changes. */
  function AfterQuery(blocked: map<string, int>, key: string, now: int): (b: map<string, int>)
    ensures ActiveBlock(b, key, now) == ActiveBlock(blocked, key, now)
    ensures key in b <==> ActiveBlock(blocked, key, now)
    ensures forall k :: k != key ==> (k in b <==> k in blocked)
    ensures forall k | k in b :: k in blocked && b[k] == blocked[k]
  {
    if key in blocked && !(now < blocked[key]) then blocked - {key} else blocked
  }

  /** The answers this backend gives to the three calls of one check on `key` at `now`,
      starting from the tables `counts` and `blocked`. */
  function RepliesTo(counts: map<string, int>, blocked: map<string, int>, key: string, now: int): Replies
  {
    Replies(Ok(ActiveBlock(blocked, key, now)), Ok(CountOf(counts, key) + 1), Ok(()))
  }

  /** A repeated `IsBlocked` query answers the same and changes nothing more. */
  lemma QueryIdempotent(blocked: map<string, int>, key: string, now: int)
    ensures AfterQuery(AfterQuery(blocked, key, now), key, now) == AfterQuery(blocked, key, now)
  {
  }

  /** A block set at `now` for `duration` is seen by `IsBlocked` exactly at the
      instants strictly before `now + duration`; from then on the query drops it. */
  lemma {:induction false} BlockExpires(blocked: map<string, int>, key: string, now: int, duration: int, t: int)
    ensures ActiveBlock(blocked[key := now + duration], key, t) <==> t < now + duration
    ensures t >= now + duration ==> key !in AfterQuery(blocked[key := now + duration], key, t)
  {
  }

  class InMemoryStorage {
    var counts: map<string, int>
    var blocked: map<string, int>
    /** The calls of the rate-limit protocol made on this backend, oldest first
        (`Get` and `Close` are not recorded). */
    ghost var log: seq<Call>

    constructor ()
      ensures counts == map[] && blocked == map[] && log == []
    {
      counts := map[];
      blocked := map[];
      log := [];
    }

    /** Adds one to the count of `key` and returns the new count; `window` is ignored. */
    method Increment(key: string, window: int) returns (r: Outcome<int>)
      modifies this
      ensures r == Ok(CountOf(old(counts), key) + 1)
      ensures counts == old(counts)[key := CountOf(old(counts), key) + 1]
      ensures blocked == old(blocked)
      ensures log == old(log) + [IncrementCall(key, window)]
    {
      counts := counts[key := CountOf(counts, key) + 1];
      log := log + [IncrementCall(key, window)];
      r := Ok(counts[key]);
    }

    /** The current count of `key`, 0 when absent; changes nothing. */
    method Get(key: string) returns (r: Outcome<int>)
      ensures r.Ok? && r.value == CountOf(counts, key)
    {
      r := Ok(CountOf(counts, key));
    }

    /** Blocks `key` until `now + duration`, overwriting any earlier entry. */
    method SetBlock(key: string, duration: int, now: int) returns (r: Outcome<()>)
      modifies this
      ensures r == Ok(())
      ensures blocked == old(blocked)[key := now + duration]
      ensures counts == old(counts)
      ensures log == old(log) + [SetBlockCall(key, duration)]
    {
      blocked := blocked[key := now + duration];
      log := log + [SetBlockCall(key, duration)];
      r := Ok(());
    }

    /** Whether `key` is blocked at `now`; an expired entry is deleted. */
    method IsBlocked(key: string, now: int) returns (r: Outcome<bool>)
      modifies this
      ensures r == Ok(ActiveBlock(old(blocked), key, now))
      ensures blocked == AfterQuery(old(blocked), key, now)
      ensures counts == old(counts)
      ensures log == old(log) + [IsBlockedCall(key)]
    {
      log := log + [IsBlockedCall(key)];
      if key in blocked {
        if now < blocked[key] {
          return Ok(true);
        }
        blocked := blocked - {key};
      }
      return Ok(false);
    }

    /** Nothing to release; never fails. */
    method Close() returns (r: Outcome<()>)
      ensures r == Ok(())
    {
      r := Ok(());
    }
  }
}
