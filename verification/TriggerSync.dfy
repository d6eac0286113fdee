/** The hot-reload protocol of the trigger words: admins commit changes to the database and then
    bump a shared counter, any number of goroutines of one process poll the counter or rebuild on
    a broadcast, and each rebuild lists the database while holding the write lock. */
module TriggerSync {
  import opened Wrappers

  /** Where a goroutine is. A poller carries the version it read; a rebuild started by a
      broadcast or by the low-frequency timer carries none. */
  datatype Phase =
    | Idle
    | Wants(version: Option<nat>)                // about to lock
    | Locked(version: Option<nat>)               // holds the write lock, has not listed yet
    | Listed(version: Option<nat>, read: nat)    // holds the write lock and the listing of commit number read
    | Rebuilt(version: Option<nat>)              // has installed and unlocked, has not stored the cursor yet

  /** commits numbers the database states, 0 being the one at start. bumps[v - 1] is the commit
      whose increment returned v, so the counter is |bumps|. */
  datatype State = State(
    commits: nat,
    unannounced: set<nat>,
    bumps: seq<nat>,
    installed: nat,
    lastSeen: nat,
    holder: Option<nat>,
    threads: map<nat, Phase>)

  datatype Event =
    | Commit                   // an admin change reaches the database
    | Bump(commit: nat)        // its increment of the counter succeeds
    | BumpLost(commit: nat)    // its increment fails and is only logged
    | Poll(thread: nat)        // read the counter and compare with the cursor
    | Broadcast(thread: nat)   // a rebuild without reading the counter
    | Acquire(thread: nat)
    | List(thread: nat)
    | ListFails(thread: nat)
    | Install(thread: nat)
    | Store(thread: nat)

  function PhaseOf(s: State, t: nat): Phase {
    if t in s.threads then s.threads[t] else Idle
  }

  function Move(s: State, t: nat, p: Phase): State {
    s.(threads := s.threads[t := p])
  }

  /** One atomic step; an event that cannot happen now changes nothing. */
  function Next(s: State, e: Event): State {
    match e
    case Commit =>
      s.(commits := s.commits + 1, unannounced := s.unannounced + {s.commits + 1})
    case Bump(c) =>
      if c in s.unannounced then s.(bumps := s.bumps + [c], unannounced := s.unannounced - {c}) else s
    case BumpLost(c) =>
      s.(unannounced := s.unannounced - {c})
    case Poll(t) =>
      if PhaseOf(s, t).Idle? && |s.bumps| != s.lastSeen then Move(s, t, Wants(Some(|s.bumps|))) else s
    case Broadcast(t) =>
      if PhaseOf(s, t).Idle? then Move(s, t, Wants(None)) else s
    case Acquire(t) =>
      if PhaseOf(s, t).Wants? && s.holder.None?
      then Move(s, t, Locked(PhaseOf(s, t).version)).(holder := Some(t)) else s
    case List(t) =>
      if PhaseOf(s, t).Locked? then Move(s, t, Listed(PhaseOf(s, t).version, s.commits)) else s
    case ListFails(t) =>
      if PhaseOf(s, t).Locked? then Move(s, t, Idle).(holder := None) else s
    case Install(t) =>
      var p := PhaseOf(s, t);
      if p.Listed?
      then Move(s, t, if p.version.Some? then Rebuilt(p.version) else Idle).(holder := None, installed := p.read)
      else s
    case Store(t) =>
      var p := PhaseOf(s, t);
      if p.Rebuilt? && p.version.Some? then Move(s, t, Idle).(lastSeen := p.version.value) else s
  }

  function Run(s: State, events: seq<Event>): State
    decreases events
  {
    if events == [] then s else Run(Next(s, events[0]), events[1..])
  }

  /** At start nothing has been announced and the matcher reflects no commit. */
  const Start := State(0, {}, [], 0, 0, None, map[])

  /** Every change announced by one of the first v increments is among the first n commits. */
  ghost predicate Covers(s: State, v: nat, n: nat) {
    v <= |s.bumps| && forall i :: 0 <= i < v ==> s.bumps[i] <= n
  }

  ghost predicate PhaseOk(s: State, t: nat) {
    var p := PhaseOf(s, t);
    && ((p.Locked? || p.Listed?) <==> s.holder == Some(t))
    && (p.Listed? ==> s.installed <= p.read <= s.commits)
    && (p.Rebuilt? ==> p.version.Some?)
    && (!p.Idle? && p.version.Some? ==>
          Covers(s, p.version.value, if p.Listed? then p.read else if p.Rebuilt? then s.installed else s.commits))
  }

  ghost predicate Inv(s: State) {
    && s.installed <= s.commits
    && (forall c :: c in s.unannounced ==> c <= s.commits)
    && Covers(s, |s.bumps|, s.commits)
    && Covers(s, s.lastSeen, s.installed)
    && forall t {:trigger PhaseOk(s, t)} :: PhaseOk(s, t)
  }

  lemma CoversGrows(s: State, s': State, v: nat, n: nat, n': nat)
    requires Covers(s, v, n) && s.bumps <= s'.bumps && n <= n'
    ensures Covers(s', v, n')
  {
  }

  ghost predicate MovesThread(e: Event, t: nat) {
    !(e.Commit? || e.Bump? || e.BumpLost?) && e.thread == t
  }

  lemma OtherThreadStep(s: State, e: Event, t: nat)
    requires Inv(s) && !MovesThread(e, t)
    ensures PhaseOk(Next(s, e), t)
  {
    var s' := Next(s, e);
    assert PhaseOk(s, t);
    if !(e.Commit? || e.Bump? || e.BumpLost?) {
      assert PhaseOk(s, e.thread);
    }
    assert PhaseOf(s', t) == PhaseOf(s, t);
    var p := PhaseOf(s, t);
    if !p.Idle? && p.version.Some? && !p.Listed? {
      CoversGrows(s, s', p.version.value, if p.Rebuilt? then s.installed else s.commits,
                  if p.Rebuilt? then s'.installed else s'.commits);
    }
  }

  lemma OwnThreadStep(s: State, e: Event, t: nat)
    requires Inv(s) && MovesThread(e, t)
    ensures PhaseOk(Next(s, e), t)
  {
    assert PhaseOk(s, t);
  }

  /** A step keeps the invariant and never takes the installed state backwards. */
  lemma InvStep(s: State, e: Event)
    requires Inv(s)
    ensures Inv(Next(s, e)) && s.installed <= Next(s, e).installed
  {
    var s' := Next(s, e);
    assert !(e.Commit? || e.Bump? || e.BumpLost?) ==> PhaseOk(s, e.thread);
    CoversGrows(s, s', s.lastSeen, s.installed, s'.installed);
    forall t ensures PhaseOk(s', t) {
      if MovesThread(e, t) { OwnThreadStep(s, e, t); } else { OtherThreadStep(s, e, t); }
    }
  }

  lemma {:induction false} RunKeepsInv(s: State, events: seq<Event>)
    requires Inv(s)
    ensures Inv(Run(s, events)) && s.installed <= Run(s, events).installed
    decreases events
  {
    if events != [] {
      InvStep(s, events[0]);
      RunKeepsInv(Next(s, events[0]), events[1..]);
    }
  }

  /** In every interleaving, the installed matcher reflects every change whose increment returned
      at most the stored cursor, and a longer run reflects a database state at least as recent. */
  lemma CursorIsInstalled(events: seq<Event>, more: seq<Event>)
    ensures var s := Run(Start, events);
            && s.installed <= s.commits
            && s.lastSeen <= |s.bumps|
            && (forall i :: 0 <= i < s.lastSeen ==> s.bumps[i] <= s.installed)
            && s.installed <= Run(s, more).installed
  {
    assert forall t :: PhaseOk(Start, t);
    RunKeepsInv(Start, events);
    RunKeepsInv(Run(Start, events), more);
  }

  /** From any reachable state with the lock free, one undisturbed poll that finds the counter
      ahead of the cursor installs everything committed and catches the cursor up. */
  lemma PollCatchesUp(s: State, t: nat)
    requires Inv(s) && PhaseOf(s, t).Idle? && s.holder.None? && |s.bumps| != s.lastSeen
    ensures var s' := Run(s, Polling(t));
      s'.lastSeen == |s'.bumps| && s'.installed == s'.commits && s'.holder.None? && s'.commits == s.commits
  {
    var v := Some(|s.bumps|);
    var s1, s2 := Next(s, Poll(t)), Next(Next(s, Poll(t)), Acquire(t));
    var s3 := Next(s2, List(t));
    var s4 := Next(s3, Install(t));
    assert PhaseOf(s1, t) == Wants(v) && PhaseOf(s2, t) == Locked(v);
    assert PhaseOf(s3, t) == Listed(v, s.commits) && PhaseOf(s4, t) == Rebuilt(v);
    RunFive(s, Poll(t), Acquire(t), List(t), Install(t), Store(t));
  }

  /** An undisturbed poll of goroutine t, and a rebuild that does not read the counter. */
  function Polling(t: nat): seq<Event> {
    [Poll(t), Acquire(t), List(t), Install(t), Store(t)]
  }

  function Rebuilding(t: nat): seq<Event> {
    [Broadcast(t), Acquire(t), List(t), Install(t), Store(t)]
  }

  /** A poll that finds the counter at the cursor does nothing. */
  lemma PollIsIdle(s: State, t: nat)
    requires Inv(s) && PhaseOf(s, t).Idle? && |s.bumps| == s.lastSeen
    ensures Run(s, Polling(t)) == s
  {
    RunFive(s, Poll(t), Acquire(t), List(t), Install(t), Store(t));
  }

  /** From any reachable state with the lock free, a poll leaves everything committed installed,
      exactly if the counter was ahead of the cursor or nothing was missing. */
  lemma PollInstallsAllIff(s: State, t: nat)
    requires Inv(s) && PhaseOf(s, t).Idle? && s.holder.None?
    ensures var s' := Run(s, Polling(t));
      s'.installed == s'.commits <==> |s.bumps| != s.lastSeen || s.installed == s.commits
  {
    if |s.bumps| != s.lastSeen {
      PollCatchesUp(s, t);
    } else {
      PollIsIdle(s, t);
    }
  }

  /** With the cursor at the counter something can be missing only behind the last announced change:
      a lost increment is made up for by the increment of any later change. */
  lemma AnnouncedIsInstalled(s: State)
    requires Inv(s) && s.lastSeen == |s.bumps|
    ensures forall c :: c in s.bumps ==> c <= s.installed
    ensures s.commits in s.bumps ==> s.installed == s.commits
  {
  }

  /** A rebuild that does not read the counter installs everything, whatever was lost. */
  lemma RebuildInstallsAll(s: State, t: nat)
    requires Inv(s) && PhaseOf(s, t).Idle? && s.holder.None?
    ensures var s' := Run(s, Rebuilding(t)); s'.installed == s'.commits && s'.commits == s.commits
  {
    var s1, s2 := Next(s, Broadcast(t)), Next(Next(s, Broadcast(t)), Acquire(t));
    var s3 := Next(s2, List(t));
    assert PhaseOf(s1, t) == Wants(None) && PhaseOf(s2, t) == Locked(None);
    assert PhaseOf(s3, t) == Listed(None, s.commits);
    RunFive(s, Broadcast(t), Acquire(t), List(t), Install(t), Store(t));
  }

  lemma RunFive(s: State, a: Event, b: Event, c: Event, d: Event, e: Event)
    ensures Run(s, [a, b, c, d, e]) == Next(Next(Next(Next(Next(s, a), b), c), d), e)
  {
    RunOne(s, a, [b, c, d, e]);
    RunOne(Next(s, a), b, [c, d, e]);
    RunOne(Next(Next(s, a), b), c, [d, e]);
    RunOne(Next(Next(Next(s, a), b), c), d, [e]);
    RunOne(Next(Next(Next(Next(s, a), b), c), d), e, []);
  }

  lemma RunOne(s: State, a: Event, rest: seq<Event>)
    ensures Run(s, [a] + rest) == Run(Next(s, a), rest)
  {
    assert ([a] + rest)[1..] == rest;
  }

  /** A change whose increment is lost, with none after it: a poll does nothing although it is missing. */
  lemma LostBumpIsNotPolled(s: State, t: nat)
    requires Inv(s) && PhaseOf(s, t).Idle? && |s.bumps| == s.lastSeen
    ensures var s' := Run(s, [Commit, BumpLost(s.commits + 1)]);
      Inv(s') && s'.installed < s'.commits && Run(s', Polling(t)) == s'
  {
    var c := s.commits + 1;
    var s1 := Next(s, Commit);
    RunOne(s, Commit, [BumpLost(c)]);
    RunOne(s1, BumpLost(c), []);
    assert [BumpLost(c)] + [] == [BumpLost(c)];
    assert [Commit] + [BumpLost(c)] == [Commit, BumpLost(c)];
    InvStep(s, Commit);
    InvStep(s1, BumpLost(c));
    PollIsIdle(Next(s1, BumpLost(c)), t);
  }
}
