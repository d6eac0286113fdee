/** The arithmetic shared by the two Redis token buckets: what refilling a stored bucket gives at a
    given time, and when Redis has expired it. Times are microseconds, rates exact. */
module TokenBucket {
  import opened Wrappers

  /** A full bucket holds capacity tokens and an empty one takes periodUs to fill. */
  datatype Limits = Limits(capacity: int, periodUs: int) {
    predicate Ok() {
      capacity >= 1 && periodUs >= 1
    }

    function Full(): real {
      capacity as real
    }

    /** Tokens per microsecond. */
    function Rate(): real
      requires Ok()
    {
      capacity as real / periodUs as real
    }

    /** The key's life after a write: twice the period, in whole milliseconds. */
    function ExpireUs(): int
      requires Ok()
    {
      periodUs / 1000 * 2 * 1000
    }

    /** The Retry-After header: seconds to recover one token, rounded up. */
    function RetryAfterSeconds(): int
      requires Ok()
    {
      -((-1.0 / (Rate() * 1000000.0)).Floor)
    }
  }

  /** The two fields of the Redis hash. */
  datatype Bucket = Bucket(tokens: real, lastRefill: int)

  /** The hash with the instant at which Redis drops it. */
  datatype Entry = Entry(bucket: Bucket, expiresAt: int)

  function Gain(l: Limits, us: int): real
    requires l.Ok()
  {
    us as real * l.Rate()
  }

  function Min(a: real, b: real): real {
    if a <= b then a else b
  }

  /** The bucket the scripts compute from what they read; a missing key is a full bucket. */
  function Refilled(l: Limits, b: Option<Bucket>, now: int): Bucket
    requires l.Ok()
  {
    match b
    case None => Bucket(l.Full(), now)
    case Some(s) =>
      var elapsed := now - s.lastRefill;
      if elapsed > 0 then Bucket(Min(l.Full(), s.tokens + Gain(l, elapsed)), now) else s
  }

  /** What a script reads at the given Redis time. */
  function Live(e: Option<Entry>, clock: int): Option<Bucket> {
    if e.Some? && clock < e.value.expiresAt then Some(e.value.bucket) else None
  }

  lemma GainAdds(l: Limits, a: int, b: int)
    requires l.Ok()
    ensures Gain(l, a) + Gain(l, b) == Gain(l, a + b)
  {
  }

  lemma GainGrows(l: Limits, a: int, b: int)
    requires l.Ok() && a <= b
    ensures l.Rate() > 0.0 && Gain(l, a) <= Gain(l, b) && (a < b ==> Gain(l, a) < Gain(l, b))
  {
    GainAdds(l, a, b - a);
    assert l.Rate() > 0.0;
    assert a < b ==> (b - a) as real * l.Rate() > 0.0;
  }

  lemma PeriodFills(l: Limits)
    requires l.Ok()
    ensures Gain(l, l.periodUs) == l.Full()
  {
  }

  /** Twice the whole milliseconds of a period cover the period, unless there are none. */
  lemma ExpiryCoversPeriod(l: Limits)
    requires l.Ok()
    ensures l.ExpireUs() >= l.periodUs <==> l.periodUs >= 1000
    ensures l.periodUs < 1000 ==> l.ExpireUs() == 0
    ensures l.periodUs % 1000 == 0 ==> l.ExpireUs() == 2 * l.periodUs
  {
  }

  lemma RetryEarnsAToken(l: Limits)
    requires l.Ok()
    ensures l.RetryAfterSeconds() >= 1
    ensures Gain(l, l.RetryAfterSeconds() * 1000000) >= 1.0
  {
    var r := l.Rate();
    GainGrows(l, 0, 1);
    var x := 1.0 / (r * 1000000.0);
    assert x * (r * 1000000.0) == 1.0 && x > 0.0;
    assert -1.0 / (r * 1000000.0) == -x;
    var s := l.RetryAfterSeconds();
    assert s as real >= x;
    assert (s as real - x) * (r * 1000000.0) >= 0.0;
    assert s as real * (r * 1000000.0) >= 1.0;
  }

  lemma LessThanItsCeiling(x: real, n: int)
    ensures n < -((-x).Floor) ==> n as real < x
    ensures n >= -((-x).Floor) ==> n as real >= x
  {
  }

  /** The advertised wait is the least number of whole seconds that earns a token. */
  lemma RetryIsLeast(l: Limits, n: int)
    requires l.Ok()
    ensures Gain(l, n * 1000000) >= 1.0 <==> n >= l.RetryAfterSeconds()
  {
    var r := l.Rate() * 1000000.0;
    GainGrows(l, 0, 1);
    var x := 1.0 / r;
    assert x * r == 1.0 && -1.0 / r == -x;
    LessThanItsCeiling(x, n);
    assert Gain(l, n * 1000000) == n as real * r;
    Scaled(n as real, x, r);
  }

  lemma Scaled(a: real, b: real, r: real)
    requires r > 0.0
    ensures a * r >= b * r <==> a >= b
  {
    if a < b {
      assert (b - a) * r > 0.0;
    } else {
      assert (a - b) * r >= 0.0;
    }
  }
}
