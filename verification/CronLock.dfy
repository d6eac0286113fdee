/** The distributed lock of the cron jobs: set if absent with a time to live, refreshed by its
    owner while the job runs, and never released, only left to expire. Times are milliseconds. */
module CronLock {
  import opened Wrappers

  /** The Redis key: whose value it holds and when it expires. */
  datatype Entry = Entry(value: nat, expiresAt: int)

  predicate Live(e: Option<Entry>, now: int) {
    e.Some? && now < e.value.expiresAt
  }

  /** SET NX with a time to live. */
  function Acquire(e: Option<Entry>, value: nat, now: int, ttl: int): (Option<Entry>, bool) {
    if Live(e, now) then (e, false) else (Some(Entry(value, now + ttl)), true)
  }

  /** Extend only what is still one's own. */
  function Extend(e: Option<Entry>, value: nat, now: int, ttl: int): (Option<Entry>, bool) {
    if Live(e, now) && e.value.value == value then (Some(Entry(value, now + ttl)), true) else (e, false)
  }

  class RedisLocker {
    var entry: Option<Entry>

    constructor ()
      ensures entry == None
    {
      entry := None;
    }

    method Lock(value: nat, now: int, ttl: int) returns (success: bool)
      modifies this
      ensures (entry, success) == Acquire(old(entry), value, now, ttl)
    {
      success := !Live(entry, now);
      if success {
        entry := Some(Entry(value, now + ttl));
      }
    }

    method Refresh(value: nat, now: int, ttl: int) returns (success: bool)
      modifies this
      ensures (entry, success) == Extend(old(entry), value, now, ttl)
    {
      success := false;
      if Live(entry, now) && entry.value.value == value {
        entry := Some(entry.value.(expiresAt := now + ttl));
        success := true;
      }
    }

    method Unlock(value: nat, now: int)
      modifies this
      ensures entry == if Live(old(entry), now) && old(entry).value.value == value then None else old(entry)
    {
      if Live(entry, now) && entry.value.value == value {
        entry := None;
      }
    }
  }

  // --- All instances, scheduled and manual, on one key. ---

  /** now is the time of the event. Each run draws a value of its own. */
  datatype Event =
    | TryLock(run: nat, now: int)
    | Refresh(run: nat, now: int)
    | Finish(run: nat, now: int)  // the body of the run returns; the key is left alone

  /** acquired lists the runs that got the lock, in order, with the time; lease is the expiry each
      run was last granted. */
  datatype State = State(
    entry: Option<Entry>,
    clock: int,
    acquired: seq<(nat, int)>,
    lease: map<nat, int>)

  const Start := State(None, 0, [], map[])

  function Next(s: State, e: Event, ttl: int): State {
    match e
    case TryLock(run, now) =>
      var (entry, ok) := Acquire(s.entry, run, now, ttl);
      if ok then State(entry, now, s.acquired + [(run, now)], s.lease[run := now + ttl]) else s.(clock := now)
    case Refresh(run, now) =>
      var (entry, ok) := Extend(s.entry, run, now, ttl);
      if ok then s.(entry := entry, clock := now, lease := s.lease[run := now + ttl]) else s.(clock := now)
    case Finish(run, now) =>
      s.(clock := now)
  }

  function Run(s: State, events: seq<Event>, ttl: int): State
    decreases events
  {
    if events == [] then s else Run(Next(s, events[0], ttl), events[1..], ttl)
  }

  /** Time does not run backwards and no run tries to lock twice. */
  ghost predicate Ordered(s: State, events: seq<Event>, ttl: int)
    decreases events
  {
    events != [] ==>
      && s.clock <= events[0].now
      && (events[0].TryLock? ==> events[0].run !in s.lease)
      && Ordered(Next(s, events[0], ttl), events[1..], ttl)
  }

  ghost predicate Inv(s: State, ttl: int) {
    && (s.entry.None? <==> s.acquired == [])
    && (s.acquired != [] ==>
          var (run, at) := s.acquired[|s.acquired| - 1];
          s.entry.value.value == run && at <= s.clock && at + ttl <= s.entry.value.expiresAt)
    && (forall i, j :: 0 <= i < j < |s.acquired| ==> s.acquired[i].1 + ttl <= s.acquired[j].1)
    && (forall run :: run in s.lease ==> s.lease[run] <= s.clock || s.entry == Some(Entry(run, s.lease[run])))
    && (s.entry.Some? ==> s.entry.value.value in s.lease && s.lease[s.entry.value.value] == s.entry.value.expiresAt)
  }

  lemma InvStep(s: State, e: Event, ttl: int)
    requires ttl > 0 && Inv(s, ttl) && s.clock <= e.now && (e.TryLock? ==> e.run !in s.lease)
    ensures Inv(Next(s, e, ttl), ttl) && s.acquired <= Next(s, e, ttl).acquired
  {
    var s' := Next(s, e, ttl);
    if s'.acquired != s.acquired && s.acquired != [] {
      var last := |s.acquired| - 1;
      assert forall i :: 0 <= i <= last ==> s.acquired[i].1 <= s.acquired[last].1;
    }
  }

  lemma {:induction false} RunKeepsInv(s: State, events: seq<Event>, ttl: int)
    requires ttl > 0 && Inv(s, ttl) && Ordered(s, events, ttl)
    ensures Inv(Run(s, events, ttl), ttl) && s.acquired <= Run(s, events, ttl).acquired
    decreases events
  {
    if events != [] {
      InvStep(s, events[0], ttl);
      RunKeepsInv(Next(s, events[0], ttl), events[1..], ttl);
    }
  }

  /** Any two acquisitions of a key are at least the time to live apart. */
  lemma AcquisitionsAreSpaced(events: seq<Event>, ttl: int, i: nat, j: nat)
    requires ttl > 0 && Ordered(Start, events, ttl)
    requires i < j < |Run(Start, events, ttl).acquired|
    ensures var acquired := Run(Start, events, ttl).acquired; acquired[i].1 + ttl <= acquired[j].1
  {
    RunKeepsInv(Start, events, ttl);
  }

  /** If a run's body returns before the expiry it was last granted, no other run has acquired the
      lock since it did: as of that moment it is the last in the list. */
  lemma TimelyRunIsAlone(events: seq<Event>, ttl: int, run: nat, now: int)
    requires ttl > 0 && Ordered(Start, events + [Finish(run, now)], ttl)
    requires run in Run(Start, events, ttl).lease
    requires now < Run(Start, events, ttl).lease[run]
    ensures var s := Run(Start, events, ttl);
            s.acquired != [] && s.acquired[|s.acquired| - 1].0 == run && s.entry == Some(Entry(run, s.lease[run]))
  {
    OrderedSplit(Start, events, [Finish(run, now)], ttl);
    RunKeepsInv(Start, events, ttl);
  }

  lemma {:induction false} OrderedSplit(s: State, a: seq<Event>, b: seq<Event>, ttl: int)
    requires Ordered(s, a + b, ttl)
    ensures Ordered(s, a, ttl) && Ordered(Run(s, a, ttl), b, ttl)
    ensures Run(s, a + b, ttl) == Run(Run(s, a, ttl), b, ttl)
    decreases a
  {
    if a == [] {
      assert a + b == b;
    } else {
      assert (a + b)[1..] == a[1..] + b;
      OrderedSplit(Next(s, a[0], ttl), a[1..], b, ttl);
    }
  }

  /** An expiry that has passed is never extended. */
  lemma {:induction false} ExpiredStaysExpired(s: State, events: seq<Event>, ttl: int, run: nat)
    requires ttl > 0 && Inv(s, ttl) && Ordered(s, events, ttl)
    requires run in s.lease && s.lease[run] <= s.clock
    ensures var s' := Run(s, events, ttl); s.clock <= s'.clock && run in s'.lease && s'.lease[run] == s.lease[run]
    decreases events
  {
    if events != [] {
      InvStep(s, events[0], ttl);
      ExpiredStaysExpired(Next(s, events[0], ttl), events[1..], ttl, run);
    }
  }

  /** Two runs whose bodies both return in time do not overlap: when the first returns, the second
      has yet to acquire the lock. */
  lemma TimelyBodiesDoNotOverlap(
    before: seq<Event>, between: seq<Event>, ttl: int, first: nat, t1: int, second: nat, t2: int
  )
    requires ttl > 0 && first != second
    requires Ordered(Start, before + ([Finish(first, t1)] + between) + [Finish(second, t2)], ttl)
    requires first in Run(Start, before, ttl).lease && t1 < Run(Start, before, ttl).lease[first]
    requires var s := Run(Start, before + ([Finish(first, t1)] + between), ttl);
             second in s.lease && t2 < s.lease[second]
    ensures second !in Run(Start, before, ttl).lease
  {
    var mid := [Finish(first, t1)] + between;
    OrderedSplit(Start, before + mid, [Finish(second, t2)], ttl);
    OrderedSplit(Start, before, mid, ttl);
    var s := Run(Start, before, ttl);
    RunKeepsInv(Start, before, ttl);
    if second in s.lease {
      assert s.clock <= mid[0].now;
      ExpiredStaysExpired(s, mid, ttl, second);
    }
  }

  // --- The renewal loop, one tick every third of the time to live. ---

  const MAX_FAILURES := 3

  /** After some ticks: whether the loop still runs, its count of consecutive errors, and the expiry
      the lock was last granted, counted from the acquisition. */
  datatype Renewal = Renewal(running: bool, failCount: nat, expiresAt: int)

  /** Tick n (from 0) falls at (n + 1) * renew; fails[n] says that the call to Redis errs, reaching nothing. */
  function Renew(ttl: int, renew: int, fails: seq<bool>, n: nat): Renewal
    requires n <= |fails|
  {
    if n == 0 then Renewal(true, 0, ttl)
    else
      var r := Renew(ttl, renew, fails, n - 1);
      if !r.running then r
      else if fails[n - 1] then Renewal(r.failCount + 1 < MAX_FAILURES, r.failCount + 1, r.expiresAt)
      else if n * renew < r.expiresAt then Renewal(true, 0, n * renew + ttl)
      else r.(running := false)
  }

  /** The loop of one holder, acquired at `start`, over the ticks of `fails`. */
  method RenewLoop(locker: RedisLocker, value: nat, start: int, ttl: int, renew: int, fails: seq<bool>)
    returns (failCount: nat, running: bool)
    requires locker.entry == Some(Entry(value, start + ttl))
    modifies locker
    ensures var r := Renew(ttl, renew, fails, |fails|);
            locker.entry == Some(Entry(value, start + r.expiresAt)) && failCount == r.failCount && running == r.running
  {
    failCount, running := 0, true;
    var tick := 0;
    while tick < |fails| && running
      invariant tick <= |fails|
      invariant running || Stopped(ttl, renew, fails, tick)
      invariant var r := Renew(ttl, renew, fails, tick);
                && locker.entry == Some(Entry(value, start + r.expiresAt))
                && failCount == r.failCount && running == r.running
    {
      if fails[tick] {
        failCount := failCount + 1;
        running := failCount < MAX_FAILURES;
      } else {
        var ok := locker.Refresh(value, start + (tick + 1) * renew, ttl);
        if ok { failCount := 0; } else { running := false; }
      }
      tick := tick + 1;
    }
    StoppedStays(ttl, renew, fails, tick);
  }

  ghost predicate Stopped(ttl: int, renew: int, fails: seq<bool>, n: nat)
    requires n <= |fails|
  {
    !Renew(ttl, renew, fails, n).running
  }

  lemma {:induction false} StoppedStays(ttl: int, renew: int, fails: seq<bool>, n: nat)
    requires n <= |fails| && (n == |fails| || Stopped(ttl, renew, fails, n))
    ensures Renew(ttl, renew, fails, |fails|) == Renew(ttl, renew, fails, n)
    decreases |fails| - n
  {
    if n < |fails| {
      StoppedStays(ttl, renew, fails, n + 1);
    }
  }

  ghost predicate TwoInARow(fails: seq<bool>, n: nat)
    requires n <= |fails|
  {
    exists i {:trigger fails[i]} :: 0 <= i < n - 1 && fails[i] && fails[i + 1]
  }

  /** With the default interval, a third of the time to live, the lock survives to the next tick
      exactly if no two calls in a row have failed: after two failures the third tick falls on the
      instant of expiry. */
  lemma {:induction false} HeldIffNoTwoFailuresInARow(renew: int, fails: seq<bool>, n: nat)
    requires renew > 0 && n <= |fails|
    ensures var r := Renew(3 * renew, renew, fails, n);
            && (r.running && (n + 1) * renew < r.expiresAt <==> !TwoInARow(fails, n))
            && (!TwoInARow(fails, n) ==>
                  if n > 0 && fails[n - 1] then r.failCount == 1 && r.expiresAt == (n + 2) * renew
                  else r.failCount == 0 && r.expiresAt == (n + 3) * renew)
            && (TwoInARow(fails, n) ==> r.expiresAt <= (n + 1) * renew)
  {
    if n > 0 {
      HeldIffNoTwoFailuresInARow(renew, fails, n - 1);
      assert TwoInARow(fails, n) <==> TwoInARow(fails, n - 1) || (n >= 2 && fails[n - 2] && fails[n - 1]);
    }
  }

  /** The loop ends with the tick behind two failures in a row, whatever becomes of it: a third failure is
      where it gives up, and a success comes when the lock has expired. */
  lemma {:induction false} EndsBehindTwoFailures(renew: int, fails: seq<bool>, n: nat)
    requires renew > 0 && n <= |fails|
    ensures Renew(3 * renew, renew, fails, n).running <==> n == 0 || !TwoInARow(fails, n - 1)
    ensures n >= 3 && fails[n - 3] && fails[n - 2] && fails[n - 1] && !TwoInARow(fails, n - 2)
        ==> Renew(3 * renew, renew, fails, n).failCount == 3
  {
    if n > 0 {
      EndsBehindTwoFailures(renew, fails, n - 1);
      HeldIffNoTwoFailuresInARow(renew, fails, n - 1);
      if n > 1 {
        assert TwoInARow(fails, n - 1) <==> TwoInARow(fails, n - 2) || (n >= 3 && fails[n - 3] && fails[n - 2]);
        HeldIffNoTwoFailuresInARow(renew, fails, n - 2);
      }
    }
  }

  /** Giving up after MAX_FAILURES errors never loses a lock: by then it has expired. */
  lemma GivingUpIsTooLate(renew: int, fails: seq<bool>, n: nat)
    requires renew > 0 && n <= |fails| && Renew(3 * renew, renew, fails, n).failCount >= MAX_FAILURES
    ensures Renew(3 * renew, renew, fails, n).expiresAt <= n * renew
  {
    HeldIffNoTwoFailuresInARow(renew, fails, n);
    if n > 0 {
      HeldIffNoTwoFailuresInARow(renew, fails, n - 1);
    }
  }

  // --- A renewed run among the others. ---

  /** The refreshes a run sends from tick n on: one for each tick that does not fail. */
  function Ticks(run: nat, start: int, renew: int, fails: seq<bool>, n: nat): seq<Event>
    requires n <= |fails|
    decreases |fails| - n
  {
    if n == |fails| then []
    else
      var rest := Ticks(run, start, renew, fails, n + 1);
      if fails[n] then rest else [Refresh(run, start + (n + 1) * renew)] + rest
  }

  /** What a run itself does to the key. */
  function OwnOf(events: seq<Event>, run: nat): seq<Event> {
    if events == [] then []
    else
      var rest := OwnOf(events[1..], run);
      if !events[0].Finish? && events[0].run == run then [events[0]] + rest else rest
  }

  /** The next refresh of a run without two failures in a row falls before the expiry; until then the
      expiry stays, and the refresh renews it. Without a next refresh it stays for good. */
  lemma {:induction false} NextTick(run: nat, start: int, renew: int, fails: seq<bool>, n: nat) returns (m: nat)
    requires renew > 0 && n <= |fails| && !TwoInARow(fails, |fails|)
    ensures var expiry := Renew(3 * renew, renew, fails, n).expiresAt;
      if Ticks(run, start, renew, fails, n) == []
      then m == |fails| && Renew(3 * renew, renew, fails, m).expiresAt == expiry
      else
        && n <= m < |fails| && (m + 1) * renew < expiry
        && Ticks(run, start, renew, fails, n)
           == [Refresh(run, start + (m + 1) * renew)] + Ticks(run, start, renew, fails, m + 1)
        && Renew(3 * renew, renew, fails, m + 1).expiresAt == (m + 1) * renew + 3 * renew
    decreases |fails| - n
  {
    HeldIffNoTwoFailuresInARow(renew, fails, n);
    assert !TwoInARow(fails, n);
    if n == |fails| {
      m := n;
    } else if fails[n] {
      m := NextTick(run, start, renew, fails, n + 1);
    } else {
      m := n;
    }
  }

  lemma {:induction false} OwnComesLater(s: State, events: seq<Event>, ttl: int, run: nat)
    requires Ordered(s, events, ttl) && OwnOf(events, run) != []
    ensures s.clock <= OwnOf(events, run)[0].now
    decreases events
  {
    var s1 := Next(s, events[0], ttl);
    if events[0].Finish? || events[0].run != run {
      OwnComesLater(s1, events[1..], ttl, run);
    }
  }

  /** In any run of the system the lease of a run that ticks without two failures in a row is the one
      its own loop computes. */
  lemma {:induction false} LeaseFollowsTicks(
    s: State, events: seq<Event>, run: nat, start: int, renew: int, fails: seq<bool>, n: nat
  )
    requires renew > 0 && n <= |fails| && !TwoInARow(fails, |fails|)
    requires Inv(s, 3 * renew) && Ordered(s, events, 3 * renew)
    requires run in s.lease && s.lease[run] == start + Renew(3 * renew, renew, fails, n).expiresAt
    requires OwnOf(events, run) == Ticks(run, start, renew, fails, n)
    requires Ticks(run, start, renew, fails, n) != [] ==> s.entry == Some(Entry(run, s.lease[run]))
    ensures var s' := Run(s, events, 3 * renew);
      run in s'.lease && s'.lease[run] == start + Renew(3 * renew, renew, fails, |fails|).expiresAt
    decreases events
  {
    var m := NextTick(run, start, renew, fails, n);
    if events != [] {
      var e, s1 := events[0], Next(s, events[0], 3 * renew);
      InvStep(s, e, 3 * renew);
      if !e.Finish? && e.run == run {
        assert OwnOf(events, run)[1..] == OwnOf(events[1..], run);
        assert Ticks(run, start, renew, fails, n)[1..] == Ticks(run, start, renew, fails, m + 1);
        LeaseFollowsTicks(s1, events[1..], run, start, renew, fails, m + 1);
      } else {
        if OwnOf(events, run) != [] {
          OwnComesLater(s1, events[1..], 3 * renew, run);
        }
        LeaseFollowsTicks(s1, events[1..], run, start, renew, fails, n);
      }
    }
  }

  /** A run that renews at thirds of the time to live, never fails to twice in a row, and whose body
      returns before the next tick, is alone from its acquisition to its return, whatever others do. */
  lemma RenewedRunIsAlone(
    before: seq<Event>, events: seq<Event>, run: nat, start: int, renew: int, fails: seq<bool>, now: int
  )
    requires renew > 0 && !TwoInARow(fails, |fails|) && now < start + (|fails| + 1) * renew
    requires Ordered(Start, before + [TryLock(run, start)] + events + [Finish(run, now)], 3 * renew)
    requires !Live(Run(Start, before, 3 * renew).entry, start)
    requires OwnOf(events, run) == Ticks(run, start, renew, fails, 0)
    ensures var s0 := Run(Start, before, 3 * renew);
      var s := Run(Start, before + [TryLock(run, start)] + events, 3 * renew);
      s.acquired == s0.acquired + [(run, start)]
  {
    var ttl := 3 * renew;
    var lock := [TryLock(run, start)];
    var s0 := Run(Start, before, ttl);
    OrderedSplit(Start, before + lock + events, [Finish(run, now)], ttl);
    OrderedSplit(Start, before + lock, events, ttl);
    OrderedSplit(Start, before, lock, ttl);
    RunKeepsInv(Start, before, ttl);
    assert lock[1..] == [] && Run(s0, lock, ttl) == Next(s0, lock[0], ttl);
    var s1 := Next(s0, lock[0], ttl);
    InvStep(s0, lock[0], ttl);
    LeaseFollowsTicks(s1, events, run, start, renew, fails, 0);
    HeldIffNoTwoFailuresInARow(renew, fails, |fails|);
    TimelyRunIsAlone(before + lock + events, ttl, run, now);
    RunKeepsInv(s1, events, ttl);
    OnlyOnce(s1, events, ttl, run);
  }

  /** A run that holds the lock acquires it no second time. */
  lemma {:induction false} OnlyOnce(s: State, events: seq<Event>, ttl: int, run: nat)
    requires ttl > 0 && Inv(s, ttl) && Ordered(s, events, ttl) && run in s.lease
    ensures var s' := Run(s, events, ttl);
      s.acquired <= s'.acquired && forall i :: |s.acquired| <= i < |s'.acquired| ==> s'.acquired[i].0 != run
    decreases events
  {
    if events != [] {
      InvStep(s, events[0], ttl);
      OnlyOnce(Next(s, events[0], ttl), events[1..], ttl, run);
    }
  }
}
