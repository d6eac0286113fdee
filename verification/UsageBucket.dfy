/** The usage limiter: a request passes while at least one token is left and reports what it
    cost when it is done, so the balance can go below zero. */
module UsageBucket {
  import opened Wrappers
  import opened TokenBucket

  /** The balance a peek at this time sees. */
  function Balance(l: Limits, b: Option<Bucket>, now: int): real
    requires l.Ok()
  {
    Refilled(l, b, now).tokens
  }

  /** The admission test on the balance: its floor, cut off at zero, must be positive. */
  predicate Passes(balance: real) {
    var remaining := if balance.Floor > 0 then balance.Floor else 0;
    remaining > 0
  }

  /** So a request is refused below one token, not only at or below zero. */
  lemma PassesIffOneTokenLeft(balance: real)
    ensures Passes(balance) <==> balance >= 1.0
  {
  }

  // --- Retry-After. ---

  /** After a refusal the header names the time to earn one token; waiting that long is enough
      exactly if no more than that is missing. From an overdraft more is. */
  lemma RetryAfterIsEnoughIff(l: Limits, b: Bucket, now: int)
    requires l.Ok() && b.lastRefill <= now && !Passes(Balance(l, Some(b), now))
    ensures var wait := l.RetryAfterSeconds() * 1000000;
      Passes(Balance(l, Some(b), now + wait)) <==> Balance(l, Some(b), now) + Gain(l, wait) >= 1.0
    ensures Balance(l, Some(b), now) >= 0.0
      ==> Passes(Balance(l, Some(b), now + l.RetryAfterSeconds() * 1000000))
  {
    var wait := l.RetryAfterSeconds() * 1000000;
    RetryEarnsAToken(l);
    GainAdds(l, now - b.lastRefill, wait);
    GainGrows(l, 0, now - b.lastRefill);
    GainGrows(l, 0, wait);
    PassesIffOneTokenLeft(Balance(l, Some(b), now));
    PassesIffOneTokenLeft(Balance(l, Some(b), now + wait));
  }

  /** The bucket the deduct script writes back. */
  function Deduct(l: Limits, b: Option<Bucket>, now: int, cost: int): Bucket
    requires l.Ok()
  {
    var r := Refilled(l, b, now);
    r.(tokens := r.tokens - cost as real)
  }

  /** The limiter's Redis key. */
  class UsageKey {
    var entry: Option<Entry>

    constructor ()
      ensures entry == None
    {
      entry := None;
    }

    /** The peek script; it writes nothing. */
    method Peek(l: Limits, now: int, clock: int) returns (tokens: real)
      requires l.Ok()
      ensures tokens == Balance(l, Live(entry, clock), now)
    {
      match Live(entry, clock) {
        case None => tokens := l.Full();
        case Some(b) =>
          tokens := b.tokens;
          var elapsed := now - b.lastRefill;
          if elapsed > 0 {
            tokens := Min(l.Full(), tokens + Gain(l, elapsed));
          }
      }
    }

    /** Reporting usage runs the deduct script, except for a cost that is not positive. */
    method Report(l: Limits, now: int, clock: int, cost: int)
      requires l.Ok()
      modifies this
      ensures if cost <= 0 then entry == old(entry) else
              entry == Some(Entry(Deduct(l, old(Live(entry, clock)), now, cost), clock + l.ExpireUs()))
    {
      if cost <= 0 {
        return;
      }
      var tokens, lastRefill;
      match Live(entry, clock) {
        case None => tokens, lastRefill := l.Full(), now;
        case Some(b) => tokens, lastRefill := b.tokens, b.lastRefill;
      }
      var elapsed := now - lastRefill;
      if elapsed > 0 {
        tokens := Min(l.Full(), tokens + Gain(l, elapsed));
        lastRefill := now;
      }
      tokens := tokens - cost as real;
      entry := Some(Entry(Bucket(tokens, lastRefill), clock + l.ExpireUs()));
    }
  }

  // --- Expiry. ---

  /** Once written, the key shows at every later time the balance it would show without expiry,
      exactly if the time until expiry is enough to refill what the write left missing. */
  lemma ExpiryUnobservableIff(l: Limits, b: Bucket)
    requires l.Ok() && b.tokens <= l.Full()
    ensures (forall now :: now >= b.lastRefill ==>
               Balance(l, Live(Some(Entry(b, b.lastRefill + l.ExpireUs())), now), now) == Balance(l, Some(b), now))
            <==> b.tokens + Gain(l, l.ExpireUs()) >= l.Full()
  {
    var e := Some(Entry(b, b.lastRefill + l.ExpireUs()));
    var at := b.lastRefill + l.ExpireUs();
    GainGrows(l, 0, 0);
    if b.tokens + Gain(l, l.ExpireUs()) >= l.Full() {
      forall now | now >= b.lastRefill ensures Balance(l, Live(e, now), now) == Balance(l, Some(b), now) {
        if now >= at {
          GainGrows(l, l.ExpireUs(), now - b.lastRefill);
        }
      }
    } else {
      assert Balance(l, Live(e, at), at) == l.Full() != Balance(l, Some(b), at);
    }
  }

  /** For a period of whole milliseconds: exactly if the overdraft is at most a full bucket. */
  lemma OverdraftUpToCapacityIsKept(l: Limits, b: Bucket)
    requires l.Ok() && l.periodUs % 1000 == 0
    ensures b.tokens + Gain(l, l.ExpireUs()) >= l.Full() <==> b.tokens >= -l.Full()
  {
    ExpiryCoversPeriod(l);
    PeriodFills(l);
    GainAdds(l, l.periodUs, l.periodUs);
  }

  // --- Overdraft with concurrent requests. ---

  /** The key, and the requests admitted that have not reported yet. */
  datatype State = State(entry: Option<Entry>, clock: int, inFlight: nat)

  datatype Event =
    | Arrive(now: int)             // peek, and pass if a token is left
    | Finish(now: int, cost: int)  // an admitted request reports
    | Lose(now: int)               // an admitted request ends without a report, or the script fails

  const Fresh := State(None, 0, 0)

  function Next(l: Limits, s: State, e: Event): State
    requires l.Ok()
  {
    NextReading(l, s, e, Live(s.entry, e.now))
  }

  /** The step when that is what the scripts read. */
  function NextReading(l: Limits, s: State, e: Event, read: Option<Bucket>): State
    requires l.Ok()
  {
    match e
    case Arrive(now) =>
      s.(clock := now, inFlight := s.inFlight + if Passes(Balance(l, read, now)) then 1 else 0)
    case Finish(now, cost) =>
      if s.inFlight == 0 then s.(clock := now)
      else if cost <= 0 then s.(clock := now, inFlight := s.inFlight - 1)
      else State(Some(Entry(Deduct(l, read, now, cost), now + l.ExpireUs())), now, s.inFlight - 1)
    case Lose(now) =>
      s.(clock := now, inFlight := if s.inFlight == 0 then 0 else s.inFlight - 1)
  }

  function Run(l: Limits, s: State, events: seq<Event>): State
    requires l.Ok()
    decreases events
  {
    if events == [] then s else Run(l, Next(l, s, events[0]), events[1..])
  }

  /** The clock does not run backwards, no cost exceeds most, and never more than k requests are in flight. */
  ghost predicate Admissible(l: Limits, s: State, events: seq<Event>, k: nat, most: nat)
    requires l.Ok()
    decreases events
  {
    s.inFlight <= k &&
    (events != [] ==>
       && s.clock <= events[0].now
       && (events[0].Finish? ==> events[0].cost <= most)
       && Admissible(l, Next(l, s, events[0]), events[1..], k, most))
  }

  /** The balance now. */
  function Now(l: Limits, s: State): real
    requires l.Ok()
  {
    Balance(l, Live(s.entry, s.clock), s.clock)
  }

  /** Even if every request in flight reported the most it may, the balance would stay above the bound. */
  ghost predicate Safe(l: Limits, s: State, k: nat, most: nat)
    requires l.Ok()
  {
    && Now(l, s) - (s.inFlight * most) as real >= 1.0 - (k * most) as real
    && (s.entry.Some? ==> s.entry.value.bucket.lastRefill <= s.clock && s.entry.value.bucket.tokens <= l.Full())
  }

  lemma BalanceGrows(l: Limits, e: Option<Entry>, t: int, t': int)
    requires l.Ok() && t <= t'
    requires e.Some? ==> e.value.bucket.lastRefill <= t && e.value.bucket.tokens <= l.Full()
    ensures Balance(l, Live(e, t), t) <= Balance(l, Live(e, t'), t') <= l.Full()
  {
    GainGrows(l, 0, t' - t);
    if e.Some? {
      var last := e.value.bucket.lastRefill;
      GainGrows(l, t - last, t' - last);
      GainGrows(l, 0, t - last);
    }
  }

  lemma OwedGrows(n: nat, k: nat, most: nat)
    ensures n <= k ==> n * most <= k * most
    ensures (n + 1) * most == n * most + most
  {
  }

  lemma FinishIsSafe(l: Limits, s: State, e: Event, k: nat, most: nat)
    requires l.Ok() && Safe(l, s, k, most) && s.clock == e.now && e.Finish? && e.cost <= most
    ensures Safe(l, Next(l, s, e), k, most)
  {
    if s.inFlight > 0 && e.cost > 0 {
      var s' := Next(l, s, e);
      OwedGrows(s.inFlight - 1, k, most);
      assert s'.entry.value.bucket.tokens == Now(l, s) - e.cost as real;
      GainGrows(l, 0, 0);
      assert Now(l, s') >= Now(l, s) - e.cost as real;
    } else if s.inFlight > 0 {
      OwedGrows(s.inFlight - 1, k, most);
    }
  }

  lemma SafeStep(l: Limits, s: State, e: Event, k: nat, most: nat)
    requires l.Ok() && Safe(l, s, k, most) && s.clock <= e.now && (e.Finish? ==> e.cost <= most)
    requires Next(l, s, e).inFlight <= k
    ensures Safe(l, Next(l, s, e), k, most)
  {
    BalanceGrows(l, s.entry, s.clock, e.now);
    var waited := s.(clock := e.now);
    assert Now(l, waited) >= Now(l, s) && Next(l, s, e) == Next(l, waited, e);
    match e
    case Arrive(now) =>
      PassesIffOneTokenLeft(Now(l, waited));
      OwedGrows(Next(l, s, e).inFlight, k, most);
    case Finish(now, cost) =>
      FinishIsSafe(l, waited, e, k, most);
    case Lose(now) =>
      if s.inFlight > 0 { OwedGrows(s.inFlight - 1, k, most); }
  }

  lemma {:induction false} RunIsSafe(l: Limits, s: State, events: seq<Event>, k: nat, most: nat)
    requires l.Ok() && Safe(l, s, k, most) && Admissible(l, s, events, k, most)
    ensures Safe(l, Run(l, s, events), k, most)
    decreases events
  {
    if events != [] {
      SafeStep(l, s, events[0], k, most);
      RunIsSafe(l, Next(l, s, events[0]), events[1..], k, most);
    }
  }

  /** With at most k requests in flight, each reporting at most `most`, the balance never falls
      below 1 - k * most, in any interleaving, key expiry included. */
  lemma OverdraftBound(l: Limits, events: seq<Event>, k: nat, most: nat)
    requires l.Ok() && Admissible(l, Fresh, events, k, most)
    ensures Now(l, Run(l, Fresh, events)) >= 1.0 - (k * most) as real
  {
    assert Safe(l, Fresh, k, most);
    RunIsSafe(l, Fresh, events, k, most);
    var s := Run(l, Fresh, events);
    assert s.inFlight * most >= 0;
  }

  // --- Expiry, on whole runs. ---

  /** The key as if it never expired. */
  function Stored(e: Option<Entry>): Option<Bucket> {
    if e.Some? then Some(e.value.bucket) else None
  }

  function NextKept(l: Limits, s: State, e: Event): State
    requires l.Ok()
  {
    NextReading(l, s, e, Stored(s.entry))
  }

  /** Whether an arriving request passes. */
  function Decision(l: Limits, e: Event, read: Option<Bucket>): seq<bool>
    requires l.Ok()
  {
    if e.Arrive? then [Passes(Balance(l, read, e.now))] else []
  }

  /** Which of the requests that arrive pass, in order. */
  function Passed(l: Limits, s: State, events: seq<Event>): seq<bool>
    requires l.Ok()
    decreases events
  {
    if events == [] then []
    else Decision(l, events[0], Live(s.entry, events[0].now)) + Passed(l, Next(l, s, events[0]), events[1..])
  }

  /** The same without expiry. */
  function PassedKept(l: Limits, s: State, events: seq<Event>): seq<bool>
    requires l.Ok()
    decreases events
  {
    if events == [] then []
    else Decision(l, events[0], Stored(s.entry)) + PassedKept(l, NextKept(l, s, events[0]), events[1..])
  }

  /** The entry was written when it was last refilled, at most now. */
  ghost predicate Written(l: Limits, s: State)
    requires l.Ok()
  {
    s.entry.Some? ==>
      && s.entry.value.expiresAt == s.entry.value.bucket.lastRefill + l.ExpireUs()
      && s.entry.value.bucket.lastRefill <= s.clock && s.entry.value.bucket.tokens <= l.Full()
  }

  /** More than a full bucket is owing. */
  predicate Owes(l: Limits, s: State)
    requires l.Ok()
  {
    s.entry.Some? && s.entry.value.bucket.tokens < -l.Full()
  }

  /** The clock does not run backwards, and without expiry no write leaves more than a full bucket owing. */
  ghost predicate Modest(l: Limits, s: State, events: seq<Event>)
    requires l.Ok()
    decreases events
  {
    events != [] ==>
      var s' := NextKept(l, s, events[0]);
      s.clock <= events[0].now && (Owes(l, s') ==> s'.entry == s.entry) && Modest(l, s', events[1..])
  }

  /** Where no more than a full bucket is owing, a read shows the same with and without expiry. */
  lemma SameRead(l: Limits, s: State, now: int)
    requires l.Ok() && l.periodUs % 1000 == 0 && Written(l, s) && !Owes(l, s) && s.clock <= now
    ensures Refilled(l, Live(s.entry, now), now) == Refilled(l, Stored(s.entry), now)
  {
    if s.entry.Some? && now >= s.entry.value.expiresAt {
      var b := s.entry.value.bucket;
      ExpiryCoversPeriod(l);
      OverdraftUpToCapacityIsKept(l, b);
      GainGrows(l, l.ExpireUs(), now - b.lastRefill);
    }
  }

  lemma StepWrites(l: Limits, s: State, e: Event)
    requires l.Ok() && Written(l, s) && s.clock <= e.now
    ensures Written(l, NextKept(l, s, e))
  {
    if s.entry.Some? {
      GainGrows(l, 0, e.now - s.entry.value.bucket.lastRefill);
    }
  }

  lemma {:induction false} RunIsSame(l: Limits, s: State, events: seq<Event>)
    requires l.Ok() && l.periodUs % 1000 == 0 && Written(l, s) && !Owes(l, s) && Modest(l, s, events)
    ensures Passed(l, s, events) == PassedKept(l, s, events)
    decreases events
  {
    if events != [] {
      SameRead(l, s, events[0].now);
      StepWrites(l, s, events[0]);
      assert Next(l, s, events[0]) == NextKept(l, s, events[0]);
      RunIsSame(l, Next(l, s, events[0]), events[1..]);
    }
  }

  /** From a fresh key: as long as no write leaves more than a full bucket owing, the same requests
      pass as if the key never expired. */
  lemma ModestRunsDoNotSeeExpiry(l: Limits, events: seq<Event>)
    requires l.Ok() && l.periodUs % 1000 == 0 && Modest(l, Fresh, events)
    ensures Passed(l, Fresh, events) == PassedKept(l, Fresh, events)
  {
    RunIsSame(l, Fresh, events);
  }

  lemma PassedThree(l: Limits, s: State, a: Event, b: Event, c: Event)
    requires l.Ok()
    ensures var s1, s2 := Next(l, s, a), Next(l, Next(l, s, a), b);
      Passed(l, s, [a, b, c])
      == Decision(l, a, Live(s.entry, a.now))
         + (Decision(l, b, Live(s1.entry, b.now)) + Decision(l, c, Live(s2.entry, c.now)))
  {
    var s1, s2 := Next(l, s, a), Next(l, Next(l, s, a), b);
    assert [a, b, c][1..] == [b, c] && [b, c][1..] == [c] && [c][1..] == [];
    assert Passed(l, s2, [c]) == Decision(l, c, Live(s2.entry, c.now)) + [];
    assert Passed(l, s1, [b, c]) == Decision(l, b, Live(s1.entry, b.now)) + Passed(l, s2, [c]);
  }

  lemma KeptThree(l: Limits, s: State, a: Event, b: Event, c: Event)
    requires l.Ok()
    ensures var s1, s2 := NextKept(l, s, a), NextKept(l, NextKept(l, s, a), b);
      PassedKept(l, s, [a, b, c])
      == Decision(l, a, Stored(s.entry)) + (Decision(l, b, Stored(s1.entry)) + Decision(l, c, Stored(s2.entry)))
    ensures var s1, s2 := NextKept(l, s, a), NextKept(l, NextKept(l, s, a), b);
      && s.clock <= a.now <= b.now <= c.now && s1.clock == a.now && s2.clock == b.now
      && s1.entry == s.entry && !Owes(l, s2) && NextKept(l, s2, c).entry == s2.entry
      ==> Modest(l, s, [a, b, c])
  {
    var s1, s2 := NextKept(l, s, a), NextKept(l, NextKept(l, s, a), b);
    assert [a, b, c][1..] == [b, c] && [b, c][1..] == [c] && [c][1..] == [];
    assert PassedKept(l, s2, [c]) == Decision(l, c, Stored(s2.entry)) + [];
    assert PassedKept(l, s1, [b, c]) == Decision(l, b, Stored(s1.entry)) + PassedKept(l, s2, [c]);
    assert Modest(l, NextKept(l, s2, c), []);
  }

  lemma OneArrival(l: Limits, s: State, at: int)
    requires l.Ok() && s.clock <= at
    ensures Modest(l, s, [Arrive(at)])
    ensures Passed(l, s, [Arrive(at)]) == [Passes(Balance(l, Live(s.entry, at), at))]
    ensures PassedKept(l, s, [Arrive(at)]) == [Passes(Balance(l, Stored(s.entry), at))]
  {
    assert [Arrive(at)][1..] == [];
  }

  /** After an arrival at the instant of expiry, a cost of all but one token. */
  lemma CostTells(l: Limits, s: State, b: Bucket, at: int)
    requires l.Ok() && l.ExpireUs() > 0 && s.entry == Some(Entry(b, at)) && s.clock <= at && b.lastRefill < at
    requires var x := Balance(l, Some(b), at); 1.0 <= x < l.Full()
    ensures var events := [Arrive(at), Finish(at, l.capacity - 1), Arrive(at)];
      Modest(l, s, events) && Passed(l, s, events) == [true, true] && PassedKept(l, s, events) == [true, false]
  {
    var a1, f, a2 := Arrive(at), Finish(at, l.capacity - 1), Arrive(at);
    var x := Balance(l, Some(b), at);
    PassesIffOneTokenLeft(x);
    PassesIffOneTokenLeft(l.Full());
    PassesIffOneTokenLeft(1.0);
    PassesIffOneTokenLeft(x - (l.capacity - 1) as real);
    var s1, s2 := Next(l, s, a1), Next(l, Next(l, s, a1), f);
    var k1, k2 := NextKept(l, s, a1), NextKept(l, NextKept(l, s, a1), f);
    assert s1 == k1 == s.(clock := at, inFlight := s.inFlight + 1);
    assert s2.entry == Some(Entry(Bucket(1.0, at), at + l.ExpireUs()));
    assert k2.entry == Some(Entry(Bucket(x - (l.capacity - 1) as real, at), at + l.ExpireUs()));
    PassedThree(l, s, a1, f, a2);
    KeptThree(l, s, a1, f, a2);
  }

  /** At the instant of expiry the key is full, and without expiry it is not: either the next arrival
      tells the two apart, or a request that costs all but one token does. */
  lemma ExpiryShows(l: Limits, s: State) returns (events: seq<Event>)
    requires l.Ok() && l.periodUs % 1000 == 0 && Written(l, s) && Owes(l, s)
    requires s.clock == s.entry.value.bucket.lastRefill
    ensures Modest(l, s, events) && Passed(l, s, events) != PassedKept(l, s, events)
  {
    var at, b := s.entry.value.expiresAt, s.entry.value.bucket;
    ExpiryCoversPeriod(l);
    OverdraftUpToCapacityIsKept(l, b);
    var x := Balance(l, Some(b), at);
    if x < 1.0 {
      events := [Arrive(at)];
      OneArrival(l, s, at);
      PassesIffOneTokenLeft(x);
      PassesIffOneTokenLeft(l.Full());
    } else {
      events := [Arrive(at), Finish(at, l.capacity - 1), Arrive(at)];
      CostTells(l, s, b, at);
    }
  }

  /** For a period of whole milliseconds, from a key just written: every run whose further writes are
      modest lets the same requests pass with and without expiry, if and only if this write left no more
      than a full bucket owing. */
  lemma ExpiryUnobservableOnRunsIff(l: Limits, s: State)
    requires l.Ok() && l.periodUs % 1000 == 0 && Written(l, s)
    requires s.entry.Some? && s.clock == s.entry.value.bucket.lastRefill
    ensures (forall events :: Modest(l, s, events) ==> Passed(l, s, events) == PassedKept(l, s, events))
       <==> s.entry.value.bucket.tokens >= -l.Full()
  {
    if Owes(l, s) {
      var events := ExpiryShows(l, s);
    } else {
      forall events | Modest(l, s, events) ensures Passed(l, s, events) == PassedKept(l, s, events) {
        RunIsSame(l, s, events);
      }
    }
  }

  // --- The bound is reached. ---

  /** n requests one after the other at time 0, each reporting one token before the next arrives. */
  function OneByOne(n: nat): seq<Event> {
    if n == 0 then [] else [Arrive(0), Finish(0, 1)] + OneByOne(n - 1)
  }

  /** n requests arriving at time 0, then n reports of cost `most` at time 0. */
  function Arrivals(n: nat): seq<Event> {
    seq(n, _ => Arrive(0))
  }

  function Reports(n: nat, most: nat): seq<Event> {
    seq(n, _ => Finish(0, most))
  }

  /** At time 0, on a key that has not expired. */
  ghost predicate AtZero(s: State) {
    s.clock == 0 && (s.entry.Some? ==> s.entry.value.expiresAt > 0 && s.entry.value.bucket.lastRefill == 0)
  }

  lemma {:induction false} RunConcat(l: Limits, s: State, a: seq<Event>, b: seq<Event>, k: nat, most: nat)
    requires l.Ok()
    ensures Run(l, s, a + b) == Run(l, Run(l, s, a), b)
    ensures Admissible(l, s, a, k, most) && Admissible(l, Run(l, s, a), b, k, most)
      ==> Admissible(l, s, a + b, k, most)
    decreases a
  {
    if a == [] {
      assert a + b == b;
    } else {
      assert (a + b)[1..] == a[1..] + b;
      RunConcat(l, Next(l, s, a[0]), a[1..], b, k, most);
    }
  }

  lemma RunTwo(l: Limits, s: State, a: Event, b: Event, rest: seq<Event>)
    requires l.Ok()
    ensures Run(l, s, [a, b] + rest) == Run(l, Next(l, Next(l, s, a), b), rest)
  {
    assert ([a, b] + rest)[1..] == [b] + rest && ([b] + rest)[1..] == rest;
  }

  lemma AdmissibleTwo(l: Limits, s: State, a: Event, b: Event, rest: seq<Event>, k: nat, most: nat)
    requires l.Ok() && s.inFlight <= k && Next(l, s, a).inFlight <= k
    requires s.clock <= a.now <= b.now
    requires (a.Finish? ==> a.cost <= most) && (b.Finish? ==> b.cost <= most)
    requires Admissible(l, Next(l, Next(l, s, a), b), rest, k, most)
    ensures Admissible(l, s, [a, b] + rest, k, most)
  {
    assert ([a, b] + rest)[1..] == [b] + rest && ([b] + rest)[1..] == rest;
  }

  /** A balance of n + 1 tokens or more is brought down by n. */
  lemma {:induction false} OneByOneDrains(l: Limits, s: State, n: nat, k: nat, most: nat)
    requires l.Ok() && l.ExpireUs() > 0 && AtZero(s) && s.inFlight == 0 && Now(l, s) >= (n + 1) as real
    requires k > 0 && most > 0
    ensures var s' := Run(l, s, OneByOne(n));
      && AtZero(s') && s'.inFlight == 0 && Now(l, s') == Now(l, s) - n as real
      && Admissible(l, s, OneByOne(n), k, most)
    decreases n
  {
    if n > 0 {
      var s1 := Next(l, s, Arrive(0));
      var s2 := Next(l, s1, Finish(0, 1));
      PassesIffOneTokenLeft(Now(l, s));
      OneByOneDrains(l, s2, n - 1, k, most);
      RunTwo(l, s, Arrive(0), Finish(0, 1), OneByOne(n - 1));
      AdmissibleTwo(l, s, Arrive(0), Finish(0, 1), OneByOne(n - 1), k, most);
    }
  }

  lemma {:induction false} AllArrive(l: Limits, s: State, n: nat, k: nat, most: nat)
    requires l.Ok() && AtZero(s) && Now(l, s) >= 1.0 && s.inFlight + n <= k
    ensures Run(l, s, Arrivals(n)) == s.(inFlight := s.inFlight + n)
    ensures Admissible(l, s, Arrivals(n), k, most)
    decreases n
  {
    if n > 0 {
      PassesIffOneTokenLeft(Now(l, s));
      assert Arrivals(n)[1..] == Arrivals(n - 1);
      AllArrive(l, s.(inFlight := s.inFlight + 1), n - 1, k, most);
    }
  }

  lemma {:induction false} AllReport(l: Limits, s: State, n: nat, k: nat, most: nat)
    requires l.Ok() && l.ExpireUs() > 0 && most > 0 && AtZero(s) && s.inFlight == n <= k
    ensures Now(l, Run(l, s, Reports(n, most))) == Now(l, s) - (n * most) as real
    ensures Admissible(l, s, Reports(n, most), k, most)
    decreases n
  {
    if n > 0 {
      var s' := Next(l, s, Finish(0, most));
      assert Reports(n, most)[1..] == Reports(n - 1, most);
      AllReport(l, s', n - 1, k, most);
      assert n * most == most + (n - 1) * most;
    }
  }

  /** Down to one token, then k requests at once. */
  function Overdraw(l: Limits, k: nat, most: nat): seq<Event>
    requires l.Ok()
  {
    OneByOne(l.capacity - 1) + (Arrivals(k) + Reports(k, most))
  }

  /** The bound is met, for every capacity: k requests pass together on the last token, then each
      reports `most`. */
  lemma OverdraftBoundIsTight(l: Limits, k: nat, most: nat)
    requires l.Ok() && l.ExpireUs() > 0 && k > 0 && most > 0
    ensures Admissible(l, Fresh, Overdraw(l, k, most), k, most)
    ensures Now(l, Run(l, Fresh, Overdraw(l, k, most))) == 1.0 - (k * most) as real
  {
    var n := l.capacity - 1;
    OneByOneDrains(l, Fresh, n, k, most);
    var s := Run(l, Fresh, OneByOne(n));
    AllArrive(l, s, k, k, most);
    AllReport(l, s.(inFlight := k), k, k, most);
    RunConcat(l, s, Arrivals(k), Reports(k, most), k, most);
    RunConcat(l, Fresh, OneByOne(n), Arrivals(k) + Reports(k, most), k, most);
  }
}
