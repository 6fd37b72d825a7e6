/**
 * The in-memory fixed-window limiter of `server/src/middleware/rateLimiter.ts`:
 * one `{count, resetTime}` record per key; a call opens a fresh window when the
 * key is unknown or its window has passed, is refused once the window's count
 * has reached the maximum, and otherwise bumps the count.
 */
module RateLimiter {
  import opened Common

  datatype Window = Window(count: int, resetTime: int)

  datatype Decision = Decision(allowed: bool, remaining: int, resetTime: int)

  /** A window is over only strictly after its reset time. */
  predicate Expired(w: Window, now: int) {
    now > w.resetTime
  }

  /** The new store and the answer of `checkRateLimit(key, windowMs, max)` at time `now`. */
  function Check(store: map<string, Window>, key: string, windowMs: int, max: int, now: int)
    : (r: (map<string, Window>, Decision))
    ensures forall k :: k != key ==> (k in r.0 <==> k in store)
    ensures forall k :: k != key && k in store ==> r.0[k] == store[k]
    ensures key in r.0
    ensures (key !in store || Expired(store[key], now)) ==>
      r.0[key] == Window(1, now + windowMs) && r.1 == Decision(true, max - 1, now + windowMs)
    ensures key in store && !Expired(store[key], now) && store[key].count >= max ==>
      r.0 == store && r.1 == Decision(false, 0, store[key].resetTime)
    ensures key in store && !Expired(store[key], now) && store[key].count < max ==>
      r.0[key] == Window(store[key].count + 1, store[key].resetTime) &&
      r.1 == Decision(true, max - store[key].count - 1, store[key].resetTime)
  {
    if key !in store || Expired(store[key], now) then
      var resetTime := now + windowMs;
      (store[key := Window(1, resetTime)], Decision(true, max - 1, resetTime))
    else if store[key].count >= max then
      (store, Decision(false, 0, store[key].resetTime))
    else
      var w := store[key];
      var next := Window(w.count + 1, w.resetTime);
      (store[key := next], Decision(true, max - next.count, w.resetTime))
  }

  /** The entries `cleanupRateLimitStore` keeps: those whose window is still open. */
  function Unexpired(store: map<string, Window>, now: int): (r: map<string, Window>)
    ensures forall k :: k in r <==> k in store && !Expired(store[k], now)
    ensures forall k :: k in r ==> r[k] == store[k]
  {
    map k | k in store && !Expired(store[k], now) :: store[k]
  }

  /** Every stored count is within the maximum. */
  ghost predicate Bounded(store: map<string, Window>, max: int) {
    forall k :: k in store ==> store[k].count <= max
  }

  class RateLimitStore {
    var store: map<string, Window>

    constructor ()
      ensures store == map[]
    {
      store := map[];
    }

    /** `checkRateLimit(key, windowMs, max)`; `now` is `Date.now()`. */
    method CheckRateLimit(key: string, windowMs: int, max: int, now: int) returns (d: Decision)
      modifies this
      ensures (store, d) == Check(old(store), key, windowMs, max, now)
    {
      if key !in store || now > store[key].resetTime {
        var resetTime := now + windowMs;
        store := store[key := Window(1, resetTime)];
        return Decision(true, max - 1, resetTime);
      }
      var record := store[key];
      if record.count >= max {
        return Decision(false, 0, record.resetTime);
      }
      store := store[key := Window(record.count + 1, record.resetTime)];
      d := Decision(true, max - (record.count + 1), record.resetTime);
    }

    /** `cleanupRateLimitStore()`: delete every entry whose window has passed. */
    method Cleanup(now: int)
      modifies this
      ensures store == Unexpired(old(store), now)
    {
      ghost var orig := store;
      var keys := store.Keys;
      while keys != {}
        invariant keys <= orig.Keys
        invariant forall k :: k in store <==> k in orig && (k in keys || !Expired(orig[k], now))
        invariant forall k :: k in store ==> store[k] == orig[k]
        decreases |keys|
      {
        var k :| k in keys;
        if now > store[k].resetTime {
          store := store - {k};
        }
        keys := keys - {k};
      }
      assert store == Unexpired(orig, now);
    }
  }

  // ---------------------------------------------------------------- properties

  /** With a maximum of at least one, no call ever lets a count pass the maximum. */
  lemma CheckBounded(store: map<string, Window>, key: string, windowMs: int, max: int, now: int)
    requires max >= 1 && Bounded(store, max)
    ensures Bounded(Check(store, key, windowMs, max, now).0, max)
  {
  }

  /** A refused call changes nothing, and a call is refused only inside a full window. */
  lemma RefusedOnlyWhenFull(store: map<string, Window>, key: string, windowMs: int, max: int, now: int)
    ensures var r := Check(store, key, windowMs, max, now);
      (!r.1.allowed <==> key in store && !Expired(store[key], now) && store[key].count >= max) &&
      (!r.1.allowed ==> r.0 == store && r.1.remaining == 0)
  {
  }

  /** At the reset time itself the window still counts. */
  lemma ResetTimeStillOpen(store: map<string, Window>, key: string, windowMs: int, max: int)
    requires key in store && store[key].count < max
    ensures var now := store[key].resetTime; var r := Check(store, key, windowMs, max, now);
      r.0[key].count == store[key].count + 1 && r.1.resetTime == store[key].resetTime
  {
  }

  /** Within one window, the first `max` calls for a key pass and the next one is refused. */
  lemma {:induction false} BurstWithinWindow(store: map<string, Window>, key: string, windowMs: int, max: int, now: int, n: nat)
    requires key !in store && windowMs >= 0 && n >= 1
    ensures var r := Burst(store, key, windowMs, max, now, n);
      key in r.0 && r.0[key].resetTime == now + windowMs &&
      (max >= 1 ==> r.0[key].count == Min(n, max)) &&
      (max < 1 ==> r.0[key].count == 1) &&
      (r.1 <==> n <= max || n == 1)
    decreases n
  {
    if n > 1 {
      BurstWithinWindow(store, key, windowMs, max, now, n - 1);
    }
  }

  /** `n` calls for `key` at the same instant: the final store and whether the last call passed. */
  function Burst(store: map<string, Window>, key: string, windowMs: int, max: int, now: int, n: nat)
    : (map<string, Window>, bool)
    requires n >= 1
  {
    var prev := if n == 1 then store else Burst(store, key, windowMs, max, now, n - 1).0;
    var r := Check(prev, key, windowMs, max, now);
    (r.0, r.1.allowed)
  }

  /**
   * Cleaning up never changes an answer: an entry it drops had expired, so a
   * later call for that key opens a fresh window just as it would have.
   */
  lemma CleanupTransparent(store: map<string, Window>, cleanedAt: int, key: string, windowMs: int, max: int, now: int)
    requires cleanedAt <= now
    ensures Check(Unexpired(store, cleanedAt), key, windowMs, max, now).1 == Check(store, key, windowMs, max, now).1
  {
  }
}
