/** The token bucket of src/aether_forge/security.py, on exact rationals. */
module RateLimiter {
  /** Tokens gained in `elapsed` seconds. */
  function Grow(elapsed: real, rate: real): (gain: real)
    ensures elapsed >= 0.0 && rate >= 0.0 ==> gain >= 0.0
    ensures elapsed == 0.0 ==> gain == 0.0
  {
    elapsed * rate
  }

  lemma GrowAdds(x: real, y: real, z: real, rate: real)
    ensures Grow(z - x, rate) == Grow(y - x, rate) + Grow(z - y, rate)
  {
  }

  // ----- the bucket as a value -----

  datatype Bucket = Bucket(capacity: real, rate: real, tokens: real, lastRefill: real) {
    ghost predicate Valid() {
      rate >= 0.0 && 0.0 <= tokens <= capacity
    }

    function Refill(now: real): Bucket {
      var grown := tokens + Grow(now - lastRefill, rate);
      this.(tokens := if grown < capacity then grown else capacity, lastRefill := now)
    }

    function Allow(now: real): (Bucket, bool) {
      var b := Refill(now);
      if b.tokens >= 1.0 then (b.(tokens := b.tokens - 1.0), true) else (b, false)
    }
  }

  function Fresh(maxRequests: nat, windowSeconds: nat, now: real): Bucket
    requires windowSeconds > 0
  {
    Bucket(maxRequests as real, maxRequests as real / windowSeconds as real, maxRequests as real, now)
  }

  // ----- the limiter -----

  class RateLimiter {
    const maxRequests: nat
    const windowSeconds: nat
    var tokens: real
    var lastRefill: real

    ghost predicate Valid()
      reads this
    {
      windowSeconds > 0 && State().Valid()
    }

    ghost function State(): Bucket
      requires windowSeconds > 0
      reads this
    {
      Fresh(maxRequests, windowSeconds, lastRefill).(tokens := tokens)
    }

    constructor (maxRequests: nat, windowSeconds: nat, now: real)
      requires windowSeconds > 0
      ensures Valid() && State() == Fresh(maxRequests, windowSeconds, now)
    {
      this.maxRequests := maxRequests;
      this.windowSeconds := windowSeconds;
      tokens := maxRequests as real;
      lastRefill := now;
    }

    /** `_refill`. */
    method Refill(now: real)
      requires Valid() && lastRefill <= now
      modifies this
      ensures Valid() && State() == old(State()).Refill(now)
    {
      var elapsed := now - lastRefill;
      var rate := maxRequests as real / windowSeconds as real;
      var grown := tokens + Grow(elapsed, rate);
      tokens := if grown < maxRequests as real then grown else maxRequests as real;
      lastRefill := now;
    }

    method Allow(now: real) returns (ok: bool)
      requires Valid() && lastRefill <= now
      modifies this
      ensures Valid() && (State(), ok) == old(State()).Allow(now)
    {
      Refill(now);
      if tokens >= 1.0 {
        tokens := tokens - 1.0;
        return true;
      }
      return false;
    }

    method Reset(now: real)
      requires Valid()
      modifies this
      ensures Valid() && State() == Fresh(maxRequests, windowSeconds, now)
    {
      tokens := maxRequests as real;
      lastRefill := now;
    }
  }

  // ----- whole runs: calls at nondecreasing times, from construction or the last reset -----

  ghost predicate Nondecreasing(from: real, times: seq<real>) {
    && (forall i :: 0 <= i < |times| ==> from <= times[i])
    && (forall i, j :: 0 <= i < j < |times| ==> times[i] <= times[j])
  }

  /** The bucket after the first `n` calls. */
  function After(b: Bucket, times: seq<real>, n: nat): (c: Bucket)
    requires n <= |times|
    ensures c.capacity == b.capacity && c.rate == b.rate
  {
    if n == 0 then b else After(b, times, n - 1).Allow(times[n - 1]).0
  }

  /** The answer of call `n`. */
  predicate Granted(b: Bucket, times: seq<real>, n: nat)
    requires n < |times|
  {
    After(b, times, n).Allow(times[n]).1
  }

  /** The number of calls granted among those numbered `i` to `j - 1`. */
  function Count(b: Bucket, times: seq<real>, i: nat, j: nat): nat
    requires i <= j <= |times|
  {
    if i == j then 0 else Count(b, times, i, j - 1) + if Granted(b, times, j - 1) then 1 else 0
  }

  /** The tokens call `n` finds after its refill. */
  function Level(b: Bucket, times: seq<real>, n: nat): real
    requires n < |times|
  {
    After(b, times, n).Refill(times[n]).tokens
  }

  /** What the window that begins at call `k` still leaves for call `n`. */
  function Room(b: Bucket, times: seq<real>, k: nat, n: nat): real
    requires k <= n < |times|
  {
    b.capacity + Grow(times[n] - times[k], b.rate) - Count(b, times, k, n) as real
  }

  function Taken(b: Bucket, times: seq<real>, n: nat): real
    requires n < |times|
  {
    if Granted(b, times, n) then 1.0 else 0.0
  }

  function Gain(b: Bucket, times: seq<real>, n: nat): real
    requires n + 1 < |times|
  {
    Grow(times[n + 1] - times[n], b.rate)
  }

  function Least(x: real, y: real): real {
    if x < y then x else y
  }

  lemma {:induction false} AfterValid(b: Bucket, times: seq<real>, n: nat)
    requires b.Valid() && n <= |times| && Nondecreasing(b.lastRefill, times)
    ensures After(b, times, n).Valid()
    ensures After(b, times, n).lastRefill == if n == 0 then b.lastRefill else times[n - 1]
  {
    if n > 0 {
      AfterValid(b, times, n - 1);
      assert n > 1 ==> times[n - 2] <= times[n - 1];
      AllowValid(After(b, times, n - 1), times[n - 1]);
    }
  }

  lemma AllowValid(b: Bucket, now: real)
    requires b.Valid() && b.lastRefill <= now
    ensures b.Allow(now).0.Valid()
  {
    assert Grow(now - b.lastRefill, b.rate) >= 0.0;
  }

  lemma LevelStep(b: Bucket, times: seq<real>, n: nat)
    requires b.Valid() && n + 1 < |times| && Nondecreasing(b.lastRefill, times)
    ensures Level(b, times, n + 1) == Least(b.capacity, Level(b, times, n) - Taken(b, times, n) + Gain(b, times, n))
  {
    AfterValid(b, times, n + 1);
    var c := After(b, times, n + 1);
    assert c.tokens == Level(b, times, n) - Taken(b, times, n);
    assert Grow(times[n + 1] - c.lastRefill, c.rate) == Gain(b, times, n);
  }

  lemma RoomStep(b: Bucket, times: seq<real>, k: nat, n: nat)
    requires k <= n && n + 1 < |times|
    ensures Room(b, times, k, n + 1) == Room(b, times, k, n) - Taken(b, times, n) + Gain(b, times, n)
  {
    GrowAdds(times[k], times[n], times[n + 1], b.rate);
  }

  lemma RoomOfSelf(b: Bucket, times: seq<real>, n: nat)
    requires n < |times|
    ensures Room(b, times, n, n) == b.capacity
  {
  }

  lemma {:induction false} LevelAtMostRoom(b: Bucket, times: seq<real>, k: nat, n: nat)
    requires b.Valid() && b.tokens == b.capacity
    requires k <= n < |times| && Nondecreasing(b.lastRefill, times)
    ensures Level(b, times, n) <= Room(b, times, k, n)
  {
    if k == n {
      RoomOfSelf(b, times, n);
    } else {
      LevelAtMostRoom(b, times, k, n - 1);
      LeastRoomStep(b, times, k, n - 1);
    }
  }

  lemma FullLevel(b: Bucket, times: seq<real>)
    requires b.Valid() && b.tokens == b.capacity && times != [] && b.lastRefill <= times[0]
    ensures Level(b, times, 0) == b.capacity
  {
    assert Grow(times[0] - b.lastRefill, b.rate) >= 0.0;
  }

  lemma {:induction false} LevelReachesRoom(b: Bucket, times: seq<real>, n: nat) returns (m: nat)
    requires b.Valid() && b.tokens == b.capacity
    requires n < |times| && Nondecreasing(b.lastRefill, times)
    ensures m <= n && Level(b, times, n) == Room(b, times, m, n)
  {
    m := n;
    RoomOfSelf(b, times, n);
    if n == 0 {
      FullLevel(b, times);
    } else {
      var k := LevelReachesRoom(b, times, n - 1);
      LeastRoomStep(b, times, k, n - 1);
      if Level(b, times, n) != b.capacity {
        m := k;
      }
    }
  }

  /** The bucket level is the smallest room over all windows ending now: no information about the
      past is lost in the single number the limiter keeps. */
  lemma LevelIsLeastRoom(b: Bucket, times: seq<real>, n: nat)
    requires b.Valid() && b.tokens == b.capacity
    requires n < |times| && Nondecreasing(b.lastRefill, times)
    ensures forall k :: 0 <= k <= n ==> Level(b, times, n) <= Room(b, times, k, n)
    ensures exists k :: 0 <= k <= n && Level(b, times, n) == Room(b, times, k, n)
  {
    forall k | 0 <= k <= n ensures Level(b, times, n) <= Room(b, times, k, n) {
      LevelAtMostRoom(b, times, k, n);
    }
    var m := LevelReachesRoom(b, times, n);
  }

  lemma LeastRoomStep(b: Bucket, times: seq<real>, k: nat, n: nat)
    requires b.Valid() && k <= n && n + 1 < |times| && Nondecreasing(b.lastRefill, times)
    requires Level(b, times, n) <= Room(b, times, k, n)
    ensures Level(b, times, n + 1) <= Room(b, times, k, n + 1)
    ensures Level(b, times, n + 1) <= b.capacity
    ensures Level(b, times, n) == Room(b, times, k, n) ==>
      Level(b, times, n + 1) == Room(b, times, k, n + 1) || Level(b, times, n + 1) == b.capacity
  {
    RoomStep(b, times, k, n);
    LevelStep(b, times, n);
  }

  /** Exactness: a call is granted if and only if every window that ends with it would still hold at
      most `capacity + rate * length` grants. */
  lemma GrantedExactly(b: Bucket, times: seq<real>, n: nat)
    requires b.Valid() && b.tokens == b.capacity
    requires n < |times| && Nondecreasing(b.lastRefill, times)
    ensures Granted(b, times, n) <==> forall k :: 0 <= k <= n ==> Fits(b, times, k, n)
  {
    LevelIsLeastRoom(b, times, n);
    var m :| 0 <= m <= n && Level(b, times, n) == Room(b, times, m, n);
    assert Fits(b, times, m, n) <==> Room(b, times, m, n) >= 1.0;
    forall k | 0 <= k <= n && Granted(b, times, n) ensures Fits(b, times, k, n) {
      assert Level(b, times, n) <= Room(b, times, k, n);
    }
  }

  /** One more grant at call `n` keeps the window from call `k` within its allowance. */
  ghost predicate Fits(b: Bucket, times: seq<real>, k: nat, n: nat)
    requires k <= n < |times|
  {
    Count(b, times, k, n) as real + 1.0 <= b.capacity + Grow(times[n] - times[k], b.rate)
  }

  lemma {:induction false} RoomCovers(b: Bucket, times: seq<real>, i: nat, j: nat)
    requires b.Valid() && b.tokens == b.capacity
    requires i <= j < |times| && Nondecreasing(b.lastRefill, times)
    ensures Room(b, times, i, j) >= Taken(b, times, j)
  {
    if Granted(b, times, j) {
      LevelIsLeastRoom(b, times, j);
      assert Level(b, times, j) >= 1.0;
    } else if i < j {
      RoomCovers(b, times, i, j - 1);
      RoomStep(b, times, i, j - 1);
      assert Gain(b, times, j - 1) >= 0.0;
    } else {
      RoomOfSelf(b, times, j);
    }
  }

  /** The window bound: between any two calls, no more than `capacity` and what the bucket regains in between. */
  lemma WindowBound(b: Bucket, times: seq<real>, i: nat, j: nat)
    requires b.Valid() && b.tokens == b.capacity
    requires i <= j < |times| && Nondecreasing(b.lastRefill, times)
    ensures Count(b, times, i, j + 1) as real <= b.capacity + Grow(times[j] - times[i], b.rate)
  {
    RoomCovers(b, times, i, j);
    assert Count(b, times, i, j + 1) as real == Count(b, times, i, j) as real + Taken(b, times, j);
  }

  lemma QuotientFacts(x: real, y: real)
    requires x >= 0.0 && y > 0.0
    ensures x / y >= 0.0 && x / y * y == x
  {
  }

  /** What is regained is proportional: `elapsed` times the rate of `max_requests` in one window. */
  lemma GrowIsProportional(maxRequests: nat, windowSeconds: nat, now: real, elapsed: real)
    requires windowSeconds > 0
    ensures Grow(elapsed, Fresh(maxRequests, windowSeconds, now).rate) == elapsed * (maxRequests as real / windowSeconds as real)
    ensures Grow(windowSeconds as real, Fresh(maxRequests, windowSeconds, now).rate) == maxRequests as real
  {
    QuotientFacts(maxRequests as real, windowSeconds as real);
  }

  /** A new or freshly reset limiter meets the hypotheses above: it is full, and it regains
      `maxRequests` tokens in one window. */
  lemma FreshIsFull(maxRequests: nat, windowSeconds: nat, now: real)
    requires windowSeconds > 0
    ensures var b := Fresh(maxRequests, windowSeconds, now);
      && b.Valid() && b.tokens == b.capacity == maxRequests as real
      && b.rate * windowSeconds as real == maxRequests as real
  {
    QuotientFacts(maxRequests as real, windowSeconds as real);
  }
}
