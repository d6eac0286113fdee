/** The request rate limiter: one token per request, refused when less than one is left. */
module RequestBucket {
  import opened Wrappers
  import opened TokenBucket

  /** One run of the script on what it reads: the bucket written back and whether the request passes. */
  function Take(l: Limits, b: Option<Bucket>, now: int): (Bucket, bool)
    requires l.Ok()
  {
    var r := Refilled(l, b, now);
    if r.tokens < 1.0 then (r, false) else (r.(tokens := r.tokens - 1.0), true)
  }

  /** The limiter's Redis key. */
  class RequestKey {
    var entry: Option<Entry>

    constructor ()
      ensures entry == None
    {
      entry := None;
    }

    /** The script: now is the caller's clock, clock is Redis's own. */
    method Request(l: Limits, now: int, clock: int) returns (tokens: real, rejected: bool)
      requires l.Ok()
      modifies this
      ensures var (b, admitted) := Take(l, old(Live(entry, clock)), now);
              entry == Some(Entry(b, clock + l.ExpireUs())) && tokens == b.tokens && rejected == !admitted
    {
      var lastRefill;
      match Live(entry, clock) {
        case None => tokens, lastRefill := l.Full(), now;
        case Some(b) => tokens, lastRefill := b.tokens, b.lastRefill;
      }
      var elapsed := now - lastRefill;
      if elapsed > 0 {
        tokens := Min(l.Full(), tokens + Gain(l, elapsed));
        lastRefill := now;
      }
      rejected := tokens < 1.0;
      if !rejected {
        tokens := tokens - 1.0;
      }
      entry := Some(Entry(Bucket(tokens, lastRefill), clock + l.ExpireUs()));
    }
  }

  // --- Any clock: the bucket never goes out of bounds and admits what it refills, no more. ---

  /** A run on a key that does not expire: the last bucket and how many requests passed. */
  function Serve(l: Limits, b: Bucket, times: seq<int>): (Bucket, nat)
    requires l.Ok()
    decreases times
  {
    if times == [] then (b, 0)
    else
      var (b1, admitted) := Take(l, Some(b), times[0]);
      var (b2, n) := Serve(l, b1, times[1..]);
      (b2, n + if admitted then 1 else 0)
  }

  ghost predicate InBounds(l: Limits, b: Bucket) {
    0.0 <= b.tokens <= l.Full()
  }

  lemma TakeBound(l: Limits, b: Bucket, now: int)
    requires l.Ok() && InBounds(l, b)
    ensures var (b1, admitted) := Take(l, Some(b), now);
            && InBounds(l, b1) && b.lastRefill <= b1.lastRefill
            && b1.tokens + (if admitted then 1.0 else 0.0) <= b.tokens + Gain(l, b1.lastRefill - b.lastRefill)
  {
    GainGrows(l, 0, if now >= b.lastRefill then now - b.lastRefill else 0);
  }

  /** Whatever the timestamps, in order or not: what a run admits and what it leaves is at most
      what it started with plus the refill for the time the key's own clock advanced. */
  lemma {:induction false} WindowBound(l: Limits, b: Bucket, times: seq<int>)
    requires l.Ok() && InBounds(l, b)
    ensures var (b', n) := Serve(l, b, times);
            && InBounds(l, b') && b.lastRefill <= b'.lastRefill
            && n as real + b'.tokens <= b.tokens + Gain(l, b'.lastRefill - b.lastRefill)
            && n as real <= l.Full() + Gain(l, b'.lastRefill - b.lastRefill)
    decreases times
  {
    if times == [] {
      GainGrows(l, 0, 0);
    } else {
      var b1 := Take(l, Some(b), times[0]).0;
      TakeBound(l, b, times[0]);
      WindowBound(l, b1, times[1..]);
      var b2 := Serve(l, b1, times[1..]).0;
      GainAdds(l, b1.lastRefill - b.lastRefill, b2.lastRefill - b1.lastRefill);
    }
  }

  // --- A clock that does not run backwards: exactly which requests pass. ---

  ghost predicate Monotone(times: seq<int>) {
    forall i, j :: 0 <= i < j < |times| ==> times[i] <= times[j]
  }

  /** What the first k requests leave behind on a fresh key that does not expire. */
  function After(l: Limits, times: seq<int>, k: nat): Option<Bucket>
    requires l.Ok() && k <= |times|
  {
    if k == 0 then None else Some(Take(l, After(l, times, k - 1), times[k - 1]).0)
  }

  /** The balance request k finds. */
  function Level(l: Limits, times: seq<int>, k: nat): real
    requires l.Ok() && k < |times|
  {
    Refilled(l, After(l, times, k), times[k]).tokens
  }

  predicate Admits(l: Limits, times: seq<int>, k: nat)
    requires l.Ok() && k < |times|
  {
    Take(l, After(l, times, k), times[k]).1
  }

  /** How many of the requests j..k-1 pass. */
  function Passed(l: Limits, times: seq<int>, j: nat, k: nat): nat
    requires l.Ok() && j <= k <= |times|
  {
    if j == k then 0 else Passed(l, times, j, k - 1) + if Admits(l, times, k - 1) then 1 else 0
  }

  /** What the window opened by request j leaves for request k. */
  function Room(l: Limits, times: seq<int>, j: nat, k: nat): real
    requires l.Ok() && j <= k < |times|
  {
    l.Full() + Gain(l, times[k] - times[j]) - Passed(l, times, j, k) as real
  }

  lemma LevelStep(l: Limits, times: seq<int>, k: nat)
    requires l.Ok() && Monotone(times) && k + 1 < |times|
    requires 0.0 <= Level(l, times, k) <= l.Full()
    ensures After(l, times, k + 1).value.lastRefill == times[k]
    ensures var left := Level(l, times, k) - if Admits(l, times, k) then 1.0 else 0.0;
            0.0 <= left && Level(l, times, k + 1) == Min(l.Full(), left + Gain(l, times[k + 1] - times[k]))
  {
    LastRefillIsLastRequest(l, times, k);
    GainGrows(l, 0, 0);
    assert times[k] <= times[k + 1];
  }

  lemma {:induction false} LastRefillIsLastRequest(l: Limits, times: seq<int>, k: nat)
    requires l.Ok() && Monotone(times) && k < |times|
    ensures Refilled(l, After(l, times, k), times[k]).lastRefill == times[k]
  {
    if k > 0 {
      LastRefillIsLastRequest(l, times, k - 1);
    }
  }

  lemma RoomStep(l: Limits, times: seq<int>, j: nat, k: nat)
    requires l.Ok() && j <= k && k + 1 < |times|
    ensures Room(l, times, j, k + 1) ==
            Room(l, times, j, k) - (if Admits(l, times, k) then 1.0 else 0.0) + Gain(l, times[k + 1] - times[k])
  {
    GainAdds(l, times[k] - times[j], times[k + 1] - times[k]);
  }

  /** The balance is the least room over all windows: no window leaves less, and some window leaves just that. */
  lemma {:induction false} LevelIsLeastRoom(l: Limits, times: seq<int>, k: nat) returns (tightest: nat)
    requires l.Ok() && Monotone(times) && k < |times|
    ensures 0.0 <= Level(l, times, k) <= l.Full()
    ensures forall j :: 0 <= j <= k ==> Level(l, times, k) <= Room(l, times, j, k)
    ensures tightest <= k && Level(l, times, k) == Room(l, times, tightest, k)
  {
    GainGrows(l, 0, 0);
    if k == 0 {
      tightest := 0;
    } else {
      tightest := LevelIsLeastRoom(l, times, k - 1);
      LevelStep(l, times, k - 1);
      GainGrows(l, 0, times[k] - times[k - 1]);
      forall j | 0 <= j < k ensures Level(l, times, k) <= Room(l, times, j, k) {
        assert Level(l, times, k - 1) <= Room(l, times, j, k - 1);
        RoomStep(l, times, j, k - 1);
      }
      RoomStep(l, times, tightest, k - 1);
      if Level(l, times, k) == l.Full() {
        tightest := k;
      }
    }
  }

  /** A request passes exactly if, for every earlier request (itself included), the requests that
      passed since then and this one fit into a full bucket plus the refill of the time between. */
  lemma AdmittedIffEveryWindowHasRoom(l: Limits, times: seq<int>, k: nat)
    requires l.Ok() && Monotone(times) && k < |times|
    ensures Admits(l, times, k) <==>
            forall j :: 0 <= j <= k ==>
                          Passed(l, times, j, k) as real + 1.0 <= l.Full() + Gain(l, times[k] - times[j])
  {
    var tightest := LevelIsLeastRoom(l, times, k);
    if !Admits(l, times, k) {
      assert Room(l, times, tightest, k) < 1.0;
    } else {
      forall j | 0 <= j <= k
        ensures Passed(l, times, j, k) as real + 1.0 <= l.Full() + Gain(l, times[k] - times[j])
      {
        assert Level(l, times, k) <= Room(l, times, j, k);
      }
    }
  }

  // --- No starvation. ---

  /** At least period / capacity apart. */
  ghost predicate Spaced(l: Limits, times: seq<int>) {
    forall i :: 0 < i < |times| ==> (times[i] - times[i - 1]) * l.capacity >= l.periodUs
  }

  lemma {:induction false} SpacingEarnsTokens(l: Limits, times: seq<int>, j: nat, k: nat)
    requires l.Ok() && Spaced(l, times) && j <= k < |times|
    ensures (k - j) as real <= Gain(l, times[k] - times[j]) && times[j] <= times[k]
  {
    if j < k {
      SpacingEarnsTokens(l, times, j, k - 1);
      var d := times[k] - times[k - 1];
      assert d * l.capacity >= l.periodUs;
      assert d as real * l.capacity as real >= l.periodUs as real;
      assert Gain(l, d) >= 1.0;
      assert d >= 0;
      GainAdds(l, times[k - 1] - times[j], d);
    }
  }

  lemma {:induction false} PassedAtMostAll(l: Limits, times: seq<int>, j: nat, k: nat)
    requires l.Ok() && j <= k <= |times|
    ensures Passed(l, times, j, k) <= k - j
  {
    if j < k {
      PassedAtMostAll(l, times, j, k - 1);
    }
  }

  /** From a fresh key, requests at least period / capacity apart all pass. */
  lemma SpacedRequestsAllPass(l: Limits, times: seq<int>, k: nat)
    requires l.Ok() && Spaced(l, times) && k < |times|
    ensures Admits(l, times, k)
  {
    forall i, j | 0 <= i < j < |times| ensures times[i] <= times[j] {
      SpacingEarnsTokens(l, times, i, j);
    }
    forall j | 0 <= j <= k
      ensures Passed(l, times, j, k) as real + 1.0 <= l.Full() + Gain(l, times[k] - times[j])
    {
      SpacingEarnsTokens(l, times, j, k);
      PassedAtMostAll(l, times, j, k);
    }
    AdmittedIffEveryWindowHasRoom(l, times, k);
  }

  /** After a rejection, what is left is less than a token, and the key's clock is not behind. */
  lemma AfterRejection(l: Limits, b: Bucket, now: int)
    requires l.Ok() && InBounds(l, b) && !Take(l, Some(b), now).1
    ensures var b1 := Take(l, Some(b), now).0;
      0.0 <= b1.tokens < 1.0 && b1.lastRefill >= now && (b.lastRefill <= now ==> b1.lastRefill == now)
  {
    TakeBound(l, b, now);
  }

  /** A retry passes exactly if what was left and the refill since make up a token. */
  lemma RetryPassesIff(l: Limits, b1: Bucket, later: int)
    requires l.Ok() && 0.0 <= b1.tokens < 1.0
    ensures Take(l, Some(b1), later).1 <==> b1.tokens + Gain(l, later - b1.lastRefill) >= 1.0
  {
    var d := later - b1.lastRefill;
    if d <= 0 {
      GainGrows(l, d, 0);
    }
  }

  /** In terms of the clock: a lone retry `wait` after the rejection passes exactly if the rejecting
      caller's clock lagged the key's by no more than the wait exceeds the time to earn what is missing. */
  lemma RetryPassesIffLagIsSmall(l: Limits, b: Bucket, now: int, wait: int)
    requires l.Ok() && InBounds(l, b) && !Take(l, Some(b), now).1
    ensures var b1 := Take(l, Some(b), now).0;
      Take(l, Some(b1), now + wait).1
      <==> (b1.lastRefill - now) as real <= wait as real - (1.0 - b1.tokens) / l.Rate()
  {
    var b1 := Take(l, Some(b), now).0;
    AfterRejection(l, b, now);
    RetryPassesIff(l, b1, now + wait);
    GainGrows(l, 0, 0);
    var lag := b1.lastRefill - now;
    assert now + wait - b1.lastRefill == wait - lag;
    Divided((wait - lag) as real, 1.0 - b1.tokens, l.Rate());
  }

  lemma Divided(x: real, y: real, r: real)
    requires r > 0.0
    ensures x * r >= y <==> x >= y / r
  {
    var q := y / r;
    assert q * r == y;
    assert (x - q) * r == x * r - y;
    assert x >= q ==> (x - q) * r >= 0.0;
    assert x < q ==> (x - q) * r < 0.0;
  }

  /** After a rejection by an ordered clock, a lone retry once Retry-After seconds have passed is
      admitted, whether or not the key has expired meanwhile. */
  lemma RetryAfterIsEnough(l: Limits, b: Bucket, now: int, later: int, expired: bool)
    requires l.Ok() && InBounds(l, b) && b.lastRefill <= now
    requires !Take(l, Some(b), now).1
    requires later >= now + l.RetryAfterSeconds() * 1000000
    ensures Take(l, if expired then None else Some(Take(l, Some(b), now).0), later).1
  {
    AfterRejection(l, b, now);
    RetryPassesIff(l, Take(l, Some(b), now).0, later);
    RetryEarnsAToken(l);
    GainGrows(l, l.RetryAfterSeconds() * 1000000, later - now);
  }

  /** With a clock that lags the key's by the advertised wait, the wait is never enough: every bucket
      that refuses at such a time refuses again after it. */
  lemma RetryAfterFailsBehind(l: Limits, b: Bucket, now: int)
    requires l.Ok() && InBounds(l, b) && !Take(l, Some(b), now).1
    requires b.lastRefill >= now + l.RetryAfterSeconds() * 1000000
    ensures !Take(l, Some(Take(l, Some(b), now).0), now + l.RetryAfterSeconds() * 1000000).1
  {
    var wait := l.RetryAfterSeconds() * 1000000;
    RetryEarnsAToken(l);
    AfterRejection(l, b, now);
    RetryPassesIff(l, Take(l, Some(b), now).0, now + wait);
    GainGrows(l, now + wait - b.lastRefill, 0);
  }

  // --- Expiry. ---

  /** One request on a key that expires, with one clock for script and Redis. */
  function TakeExpiring(l: Limits, e: Option<Entry>, now: int): (Entry, bool)
    requires l.Ok()
  {
    var (b, admitted) := Take(l, Live(e, now), now);
    (Entry(b, now + l.ExpireUs()), admitted)
  }

  function AfterExpiring(l: Limits, times: seq<int>, k: nat): Option<Entry>
    requires l.Ok() && k <= |times|
  {
    if k == 0 then None else Some(TakeExpiring(l, AfterExpiring(l, times, k - 1), times[k - 1]).0)
  }

  predicate AdmitsExpiring(l: Limits, times: seq<int>, k: nat)
    requires l.Ok() && k < |times|
  {
    TakeExpiring(l, AfterExpiring(l, times, k), times[k]).1
  }

  /** The expiring key holds the very bucket the lasting key holds. */
  lemma {:induction false} SameBucket(l: Limits, times: seq<int>, k: nat)
    requires l.Ok() && l.periodUs >= 1000 && Monotone(times) && 0 < k <= |times|
    ensures var b := After(l, times, k).value;
            AfterExpiring(l, times, k) == Some(Entry(b, times[k - 1] + l.ExpireUs()))
            && b.lastRefill == times[k - 1] && InBounds(l, b)
  {
    LastRefillIsLastRequest(l, times, k - 1);
    var _ := LevelIsLeastRoom(l, times, k - 1);
    if k > 1 {
      SameBucket(l, times, k - 1);
      var b := After(l, times, k - 1).value;
      var now := times[k - 1];
      assert times[k - 2] <= now;
      ExpiryCoversPeriod(l);
      if now >= times[k - 2] + l.ExpireUs() {
        PeriodFills(l);
        GainGrows(l, l.periodUs, now - b.lastRefill);
      }
    }
  }

  lemma SameDecision(l: Limits, times: seq<int>, k: nat)
    requires l.Ok() && l.periodUs >= 1000 && Monotone(times) && k < |times|
    ensures AdmitsExpiring(l, times, k) == Admits(l, times, k)
  {
    SameBucket(l, times, k + 1);
    if k > 0 {
      SameBucket(l, times, k);
      var b := After(l, times, k).value;
      assert times[k - 1] <= times[k];
      ExpiryCoversPeriod(l);
      if times[k] >= times[k - 1] + l.ExpireUs() {
        PeriodFills(l);
        GainGrows(l, l.periodUs, times[k] - b.lastRefill);
      }
    }
  }

  /** capacity + 1 requests at one instant. */
  function Burst(l: Limits): seq<int>
    requires l.Ok()
  {
    seq(l.capacity + 1, _ => 0)
  }

  lemma {:induction false} BurstDrains(l: Limits, k: nat)
    requires l.Ok() && l.periodUs < 1000 && k <= l.capacity
    ensures k > 0 ==> After(l, Burst(l), k) == Some(Bucket((l.capacity - k) as real, 0))
    ensures Live(AfterExpiring(l, Burst(l), k), 0) == None
  {
    if k > 0 {
      BurstDrains(l, k - 1);
      ExpiryCoversPeriod(l);
    }
  }

  /** Expiry is unobservable in what passes, on every run with an ordered clock, exactly if the
      period is at least a millisecond. Below that PEXPIRE is called with 0, which drops the key
      at once, and a burst is never refused. */
  lemma ExpiryUnobservableIff(l: Limits)
    requires l.Ok()
    ensures l.periodUs >= 1000 <==>
            forall times: seq<int>, k: nat :: Monotone(times) && k < |times| ==>
                                                AdmitsExpiring(l, times, k) == Admits(l, times, k)
  {
    if l.periodUs >= 1000 {
      forall times: seq<int>, k: nat | Monotone(times) && k < |times|
        ensures AdmitsExpiring(l, times, k) == Admits(l, times, k)
      {
        SameDecision(l, times, k);
      }
    } else {
      BurstDrains(l, l.capacity);
      assert Monotone(Burst(l));
      assert AdmitsExpiring(l, Burst(l), l.capacity) && !Admits(l, Burst(l), l.capacity);
    }
  }
}
