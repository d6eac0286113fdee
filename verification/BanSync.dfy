/** One address at one process's guard: goroutines ask Redis and remember its answers, misses ban the
    address here or elsewhere, and a ban made here drops the answer remembered. Each question, each
    entry and each script is a step of its own, with any others in between. */
module BanSync {
  import opened Wrappers

  /** A clean answer remembered: until when, and when Redis gave it. */
  datatype Entry = Entry(expiresAt: int, answeredAt: int)

  datatype Phase =
    | Idle
    | Holding(answeredAt: int)  // Redis has said "not banned", and it is not entered yet
    | Dropping                  // the script has banned the address, and the entry is not dropped yet

  /** The ban in force, or the last one, runs without a break from bannedSince to bannedUntil. */
  datatype State = State(
    clock: int,
    bannedSince: int,
    bannedUntil: int,
    entry: Option<Entry>,
    threads: map<nat, Phase>)

  datatype Config = Config(ttl: int, banTime: int)

  datatype Event =
    | Ask(thread: nat, now: int)
    | Mark(thread: nat, now: int)
    | Ban(thread: nat, now: int)   // a miss of this process reaches the threshold
    | Invalidate(thread: nat, now: int)
    | BanElsewhere(now: int)
    | Evict(now: int)

  function PhaseOf(s: State, t: nat): Phase {
    if t in s.threads then s.threads[t] else Idle
  }

  function Move(s: State, t: nat, p: Phase): State {
    s.(threads := s.threads[t := p])
  }

  predicate Banned(s: State, now: int) {
    now < s.bannedUntil
  }

  /** The cache vouches for the address. */
  predicate Clean(s: State, now: int) {
    s.entry.Some? && now < s.entry.value.expiresAt
  }

  function Banning(c: Config, s: State, now: int): State {
    s.(bannedSince := if Banned(s, now) then s.bannedSince else now, bannedUntil := now + c.banTime)
  }

  /** One atomic step; an event that cannot happen now only takes time. */
  function Next(c: Config, before: State, e: Event): State {
    var s := before.(clock := e.now);
    match e
    case Ask(t, now) =>
      if PhaseOf(s, t).Idle? && !Banned(s, now) then Move(s, t, Holding(now)) else s
    case Mark(t, now) =>
      if PhaseOf(s, t).Holding?
      then Move(s, t, Idle).(entry := Some(Entry(now + c.ttl, PhaseOf(s, t).answeredAt))) else s
    case Ban(t, now) =>
      if PhaseOf(s, t).Idle? then Move(Banning(c, s, now), t, Dropping) else s
    case Invalidate(t, now) =>
      if PhaseOf(s, t).Dropping? then Move(s, t, Idle).(entry := None) else s
    case BanElsewhere(now) => Banning(c, s, now)
    case Evict(now) => s.(entry := None)
  }

  function Run(c: Config, s: State, events: seq<Event>): State
    decreases events
  {
    if events == [] then s else Run(c, Next(c, s, events[0]), events[1..])
  }

  /** The clock does not run backwards. */
  ghost predicate Ordered(c: Config, s: State, events: seq<Event>)
    decreases events
  {
    events != [] ==> s.clock <= events[0].now && Ordered(c, Next(c, s, events[0]), events[1..])
  }

  /** Every answer is entered at most gap after Redis gave it. */
  ghost predicate Prompt(c: Config, s: State, events: seq<Event>, gap: int)
    decreases events
  {
    events != [] ==>
      && (events[0].Mark? && PhaseOf(s, events[0].thread).Holding?
          ==> events[0].now - PhaseOf(s, events[0].thread).answeredAt <= gap)
      && Prompt(c, Next(c, s, events[0]), events[1..], gap)
  }

  /** Not banned, nothing remembered, nothing under way. */
  function Start(now: int): State {
    State(now, now, now, None, map[])
  }

  // --- How late a ban takes effect. ---

  /** An answer "not banned" was not given during the ban, nor in the future. */
  ghost predicate Honest(s: State, answeredAt: int) {
    answeredAt <= s.clock && (answeredAt <= s.bannedSince || s.bannedUntil <= answeredAt)
  }

  ghost predicate Inv(c: Config, s: State, gap: int) {
    && s.bannedSince <= s.clock && s.bannedUntil <= s.clock + c.banTime
    && (forall t :: PhaseOf(s, t).Holding? ==> Honest(s, PhaseOf(s, t).answeredAt))
    && (s.entry.Some? ==>
          Honest(s, s.entry.value.answeredAt) && s.entry.value.expiresAt <= s.entry.value.answeredAt + gap + c.ttl)
  }

  lemma InvStep(c: Config, s: State, e: Event, gap: int)
    requires c.banTime >= 0 && Inv(c, s, gap) && s.clock <= e.now
    requires e.Mark? && PhaseOf(s, e.thread).Holding? ==> e.now - PhaseOf(s, e.thread).answeredAt <= gap
    ensures Inv(c, Next(c, s, e), gap)
  {
    var s' := Next(c, s, e);
    forall t | PhaseOf(s', t).Holding? ensures Honest(s', PhaseOf(s', t).answeredAt) {
      if PhaseOf(s, t).Holding? {
        assert Honest(s, PhaseOf(s, t).answeredAt);
      }
    }
  }

  lemma {:induction false} RunKeepsInv(c: Config, s: State, events: seq<Event>, gap: int)
    requires c.banTime >= 0 && Inv(c, s, gap) && Ordered(c, s, events) && Prompt(c, s, events, gap)
    ensures Inv(c, Run(c, s, events), gap)
    decreases events
  {
    if events != [] {
      InvStep(c, s, events[0], gap);
      RunKeepsInv(c, Next(c, s, events[0]), events[1..], gap);
    }
  }

  /** However the goroutines interleave, the cache vouches for a banned address for less than the time
      to live and the longest gap between an answer and its entry, counted from the start of the ban. */
  lemma BanTakesEffectWithin(c: Config, start: int, events: seq<Event>, gap: int, now: int)
    requires c.banTime >= 0 && Ordered(c, Start(start), events) && Prompt(c, Start(start), events, gap)
    ensures var s := Run(c, Start(start), events);
      s.clock <= now && Banned(s, now) && Clean(s, now) ==> now < s.bannedSince + c.ttl + gap
  {
    RunKeepsInv(c, Start(start), events, gap);
  }

  /** And it can take that long: an answer at the instant of the ban, entered gap later. */
  lemma BanCanTakeThatLong(c: Config, gap: int)
    requires c.ttl > 0 && gap >= 0 && c.banTime >= gap + c.ttl
    ensures var events := [Ask(0, 0), BanElsewhere(0), Mark(0, gap)];
      var s := Run(c, Start(0), events);
      && Ordered(c, Start(0), events) && Prompt(c, Start(0), events, gap)
      && var last := s.bannedSince + c.ttl + gap - 1; s.clock <= last && Banned(s, last) && Clean(s, last)
  {
    var events := [Ask(0, 0), BanElsewhere(0), Mark(0, gap)];
    assert events[1..] == [BanElsewhere(0), Mark(0, gap)] && events[1..][1..] == [Mark(0, gap)];
    var s1 := Next(c, Start(0), Ask(0, 0));
    var s2 := Next(c, s1, BanElsewhere(0));
    var late := [Mark(0, gap)];
    assert Run(c, s2, late) == Next(c, s2, late[0]) && Ordered(c, s2, late) && Prompt(c, s2, late, gap);
    var two := [BanElsewhere(0), Mark(0, gap)];
    assert Run(c, s1, two) == Run(c, s2, late) && Ordered(c, s1, two) && Prompt(c, s1, two, gap);
  }

  // --- When a ban of this process takes effect at once. ---

  ghost predicate NobodyHolds(s: State) {
    forall t :: !PhaseOf(s, t).Holding?
  }

  lemma StillNobodyHolds(c: Config, s: State, e: Event)
    requires NobodyHolds(s) && s.entry.None? && Banned(s, e.now)
    ensures NobodyHolds(Next(c, s, e)) && Next(c, s, e).entry.None?
  {
    assert !(e.BanElsewhere? || e.Evict?) ==> !PhaseOf(s, e.thread).Holding?;
    forall t ensures !PhaseOf(Next(c, s, e), t).Holding? {
      assert !PhaseOf(s, t).Holding?;
    }
  }

  /** Nothing vouches for the address, and nothing will before the ban ends. */
  lemma {:induction false} StaysRefused(c: Config, s: State, events: seq<Event>, until: int, now: int)
    requires c.banTime >= 0 && Ordered(c, s, events) && until <= s.bannedUntil <= s.clock + c.banTime
    requires s.clock < until ==> s.entry.None? && NobodyHolds(s)
    ensures var s' := Run(c, s, events); s'.clock <= now < until ==> !Clean(s', now)
    decreases events
  {
    if events != [] {
      var s1 := Next(c, s, events[0]);
      if s1.clock < until {
        StillNobodyHolds(c, s, events[0]);
      }
      StaysRefused(c, s1, events[1..], until, now);
    }
  }

  /** The ban acts at once: whatever happens next, no request passes on a remembered answer before the
      ban ends. */
  ghost predicate ActsAtOnce(c: Config, s: State) {
    forall events, now :: Ordered(c, s, events) && Run(c, s, events).clock <= now < s.bannedUntil
      ==> !Clean(Run(c, s, events), now)
  }

  /** Once the process that banned has dropped its entry, the ban acts at once exactly if no goroutine
      holds an older answer that it has yet to enter. */
  lemma OwnBanActsAtOnceIff(c: Config, before: State, t: nat, now: int)
    requires c.banTime >= 0 && c.ttl > 0 && before.bannedUntil <= before.clock + c.banTime
    requires PhaseOf(before, t).Dropping? && before.clock <= now < before.bannedUntil
    ensures ActsAtOnce(c, Next(c, before, Invalidate(t, now))) <==> NobodyHolds(before)
  {
    var s := Next(c, before, Invalidate(t, now));
    forall u ensures PhaseOf(s, u).Holding? <==> PhaseOf(before, u).Holding? {
    }
    if NobodyHolds(before) {
      forall u ensures !PhaseOf(s, u).Holding? {
        assert !PhaseOf(before, u).Holding?;
      }
      forall events, at | Ordered(c, s, events) && Run(c, s, events).clock <= at < s.bannedUntil
        ensures !Clean(Run(c, s, events), at)
      {
        StaysRefused(c, s, events, s.bannedUntil, at);
      }
    } else {
      var u :| PhaseOf(before, u).Holding?;
      var late := [Mark(u, now)];
      assert late[1..] == [];
      assert Run(c, s, late) == Next(c, s, late[0]);
      assert Ordered(c, s, late) && Clean(Run(c, s, late), now);
    }
  }
}
