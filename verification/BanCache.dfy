/** The in-process cache of "this address is not banned" answers. */
module BanCache {
  datatype Event = Marked(ip: string, at: int) | Invalidated(ip: string)

  /** The last event about ip is a mark, made at the given time. */
  ghost predicate LastMarked(history: seq<Event>, ip: string, at: int)
    decreases history
  {
    history != [] &&
    var last := history[|history| - 1];
    if last.ip == ip then last == Marked(ip, at) else LastMarked(history[..|history| - 1], ip, at)
  }

  class BanCleanCache {
    var entries: map<string, int>   // address to expiry
    const ttl: int
    const limit: int
    ghost var history: seq<Event>

    /** Every entry stems from a mark with nothing about that address since. */
    ghost predicate Valid()
      reads this
    {
      forall ip :: ip in entries ==> LastMarked(history, ip, entries[ip] - ttl)
    }

    constructor (ttl: int, limit: int)
      ensures Valid() && entries == map[] && history == [] && this.ttl == ttl && this.limit == limit
    {
      entries, history := map[], [];
      this.ttl, this.limit := ttl, limit;
    }

    /** A positive answer is at most ttl old and has not been invalidated since. */
    method IsClean(ip: string, now: int) returns (clean: bool)
      requires Valid()
      ensures clean <==> ip in entries && now < entries[ip]
      ensures clean ==> exists at :: LastMarked(history, ip, at) && at > now - ttl
    {
      clean := ip in entries && now < entries[ip];
      assert clean ==> LastMarked(history, ip, entries[ip] - ttl);
    }

    method MarkClean(ip: string, now: int)
      requires Valid()
      modifies this`entries, this`history
      ensures Valid() && history == old(history) + [Marked(ip, now)]
      ensures if |old(entries)| < limit then entries == old(entries)[ip := now + ttl] else
              exists kept: map<string, int> {:trigger Evicted(old(entries), kept, limit, now)} ::
                Evicted(old(entries), kept, limit, now) && entries == kept[ip := now + ttl]
      ensures limit >= 1 && |old(entries)| <= limit && !EmptyIsLeast(Unexpired(old(entries), now))
        ==> |entries| <= limit
    {
      if |entries| >= limit {
        EvictLocked(now);
        EvictionMakesRoomUnless(old(entries), entries, limit, now);
      }
      entries := entries[ip := now + ttl];
      history := history + [Marked(ip, now)];
      assert history[..|history| - 1] == old(history);
    }

    /** Drops what has expired; if that does not make room, drops one more entry, looking for the
        least expiry with the empty string as the sign for "none yet". */
    method EvictLocked(now: int)
      requires Valid()
      modifies this`entries
      ensures Valid() && Evicted(old(entries), entries, limit, now)
      ensures forall k :: k in entries ==> k in old(entries) && entries[k] == old(entries)[k] && now <= entries[k]
      ensures forall j, k :: IsLost(old(entries), entries, now, j) && IsLost(old(entries), entries, now, k) ==> j == k
    {
      entries := Unexpired(entries, now);
      if |entries| < limit {
        return;
      }
      ghost var live := entries;
      var oldest, order := FindOldest(entries);
      if oldest != "" {
        entries := entries - {oldest};
      }
      assert IsOrder(order, live.Keys) && entries == Dropping(live, order);
    }

    method Invalidate(ip: string)
      requires Valid()
      modifies this`entries, this`history
      ensures Valid() && history == old(history) + [Invalidated(ip)]
      ensures entries == old(entries) - {ip}
    {
      entries := entries - {ip};
      history := history + [Invalidated(ip)];
      assert history[..|history| - 1] == old(history);
    }
  }

  /** Gone, though it has not expired. */
  predicate IsLost(before: map<string, int>, after: map<string, int>, now: int, k: string) {
    k in before && k !in after && now <= before[k]
  }

  function Unexpired(entries: map<string, int>, now: int): (live: map<string, int>)
    ensures forall k :: k in live <==> k in entries && now <= entries[k]
    ensures forall k :: k in live ==> live[k] == entries[k]
  {
    map k | k in entries && !(now > entries[k]) :: entries[k]
  }

  // --- The scan for the oldest entry, in whatever order the map is visited. ---

  ghost predicate IsOrder(order: seq<string>, keys: set<string>) {
    (forall k :: k in order <==> k in keys) && forall i, j :: 0 <= i < j < |order| ==> order[i] != order[j]
  }

  lemma OneMore(order: seq<string>, k: string, keys: set<string>)
    requires IsOrder(order, keys) && k !in keys
    ensures IsOrder(order + [k], keys + {k}) && (order + [k])[..|order|] == order
  {
  }

  /** The address and the expiry the scan holds after the visits of order. */
  function Scanned(live: map<string, int>, order: seq<string>): (string, int)
    requires forall k :: k in order ==> k in live
  {
    if order == [] then ("", 0)
    else
      var k := order[|order| - 1];
      var (oldest, expiry) := Scanned(live, order[..|order| - 1]);
      if oldest == "" || live[k] < expiry then (k, live[k]) else (oldest, expiry)
  }

  function Oldest(live: map<string, int>, order: seq<string>): string
    requires forall k :: k in order ==> k in live
  {
    Scanned(live, order).0
  }

  function OldestExpiry(live: map<string, int>, order: seq<string>): int
    requires forall k :: k in order ==> k in live
  {
    Scanned(live, order).1
  }

  /** The scan, visiting the entries in some order. */
  method FindOldest(live: map<string, int>) returns (oldest: string, ghost order: seq<string>)
    ensures IsOrder(order, live.Keys) && oldest == Oldest(live, order)
    ensures oldest in live || oldest == ""
  {
    oldest, order := "", [];
    var oldestExpiry := 0;
    var rest := live.Keys;
    while rest != {}
      invariant rest <= live.Keys && IsOrder(order, live.Keys - rest)
      invariant Scanned(live, order).0 == oldest && (oldest != "" ==> Scanned(live, order).1 == oldestExpiry)
      invariant oldest in live || oldest == ""
      decreases rest
    {
      var k :| k in rest;
      OneMore(order, k, live.Keys - rest);
      assert live.Keys - (rest - {k}) == live.Keys - rest + {k};
      if oldest == "" || live[k] < oldestExpiry {
        oldest, oldestExpiry := k, live[k];
      }
      order, rest := order + [k], rest - {k};
    }
    assert live.Keys - rest == live.Keys;
  }

  /** What an eviction leaves: the unexpired entries if they leave room; otherwise, for some order of
      visits, all of them but the one the scan ends with, or all if it ends with none. */
  ghost predicate Evicted(before: map<string, int>, after: map<string, int>, limit: int, now: int) {
    var live := Unexpired(before, now);
    if |live| < limit then after == live
    else exists order :: IsOrder(order, live.Keys) && after == Dropping(live, order)
  }

  ghost function Dropping(live: map<string, int>, order: seq<string>): map<string, int>
    requires forall k :: k in order ==> k in live
  {
    var oldest := Oldest(live, order);
    if oldest == "" then live else live - {oldest}
  }

  lemma {:induction false} OldestIsVisited(live: map<string, int>, order: seq<string>)
    requires forall k :: k in order ==> k in live
    ensures order != [] ==> Oldest(live, order) in order && OldestExpiry(live, order) == live[Oldest(live, order)]
    ensures order == [] ==> Oldest(live, order) == ""
  {
    if order != [] {
      var front, last := order[..|order| - 1], order[|order| - 1];
      assert last in order && forall k :: k in front ==> k in order;
      OldestIsVisited(live, front);
    }
  }

  /** The empty address is there, and expires before every other one. */
  ghost predicate EmptyIsLeast(live: map<string, int>) {
    "" in live && forall k :: k in live && k != "" ==> live[""] < live[k]
  }

  /** An address that expires before the one held was visited before the empty one, and after it does. */
  lemma {:induction false} WhatIsHeld(live: map<string, int>, order: seq<string>)
    requires order != [] && forall k :: k in order ==> k in live
    requires forall i, j :: 0 <= i < j < |order| ==> order[i] != order[j]
    ensures var oldest := Oldest(live, order);
      if oldest == ""
      then "" in order && forall k :: k in order && k != "" ==> live[""] < live[k]
      else forall k :: k in order && k != "" ==>
        OldestExpiry(live, order) <= live[k] || ("" in order && live[""] < live[k])
  {
    var n := |order| - 1;
    var front, last := order[..n], order[n];
    assert order == front + [last];
    assert forall k :: k in order <==> k in front || k == last;
    var (oldest, expiry) := Scanned(live, front);
    assert Scanned(live, order) == if oldest == "" || live[last] < expiry then (last, live[last]) else (oldest, expiry);
    if front != [] {
      WhatIsHeld(live, front);
      OldestIsVisited(live, front);
    }
  }

  /** Without the empty address the one dropped has least expiry. */
  lemma WithoutEmptyTheLeastGoes(live: map<string, int>, order: seq<string>)
    requires live != map[] && "" !in live && IsOrder(order, live.Keys)
    ensures var oldest := Oldest(live, order);
      oldest in live && Dropping(live, order) == live - {oldest}
      && forall k :: k in live ==> live[oldest] <= live[k]
  {
    var k :| k in live;
    assert k in order;
    WhatIsHeld(live, order);
    OldestIsVisited(live, order);
  }

  /** Every set can be visited, with any of its addresses last. */
  lemma OrderEndingIn(keys: set<string>, last: string) returns (order: seq<string>)
    requires last in keys
    ensures IsOrder(order, keys) && order[|order| - 1] == last
  {
    order := [];
    var rest := keys - {last};
    while rest != {}
      invariant rest <= keys - {last} && IsOrder(order, keys - {last} - rest)
      decreases rest
    {
      var k :| k in rest;
      OneMore(order, k, keys - {last} - rest);
      assert keys - {last} - (rest - {k}) == keys - {last} - rest + {k};
      order, rest := order + [k], rest - {k};
    }
    OneMore(order, last, keys - {last});
    assert keys - {last} + {last} == keys;
    order := order + [last];
  }

  lemma DropsOne(live: map<string, int>, order: seq<string>)
    requires (forall k :: k in order ==> k in live) && Oldest(live, order) in live
    ensures Oldest(live, order) != "" ==> Dropping(live, order) != live
  {
    var k := Oldest(live, order);
    assert k !in live - {k};
  }

  /** A scan can end without an address to drop exactly if the empty one expires before all others. */
  lemma NothingIsDroppedIff(live: map<string, int>)
    requires live != map[]
    ensures (exists order :: IsOrder(order, live.Keys) && Dropping(live, order) == live) <==> EmptyIsLeast(live)
  {
    if EmptyIsLeast(live) {
      var order := OrderEndingIn(live.Keys, "");
      EmptyLastIsHeld(live, order);
    }
    forall order | IsOrder(order, live.Keys) && Dropping(live, order) == live ensures EmptyIsLeast(live) {
      var k :| k in live;
      assert k in order;
      OldestIsVisited(live, order);
      WhatIsHeld(live, order);
      assert Oldest(live, order) in live;
      DropsOne(live, order);
    }
  }

  lemma EmptyLastIsHeld(live: map<string, int>, order: seq<string>)
    requires EmptyIsLeast(live) && IsOrder(order, live.Keys) && order[|order| - 1] == ""
    ensures Oldest(live, order) == ""
  {
    var n := |order| - 1;
    var front := order[..n];
    assert order == front + [""];
    assert forall k :: k in front ==> k in order;
    var (oldest, expiry) := Scanned(live, front);
    assert Scanned(live, order) == if oldest == "" || live[""] < expiry then ("", live[""]) else (oldest, expiry);
    if front != [] {
      OldestIsVisited(live, front);
    }
  }

  lemma Fewer(a: set<string>, b: set<string>)
    requires a <= b
    ensures |a| <= |b|
  {
    if a != {} {
      var x :| x in a;
      Fewer(a - {x}, b - {x});
    }
  }

  lemma SizeOfRest(live: map<string, int>, k: string)
    requires k in live
    ensures |live - {k}| == |live| - 1
  {
    assert (live - {k}).Keys == live.Keys - {k};
    assert |live - {k}| == |(live - {k}).Keys| && |live| == |live.Keys|;
  }

  /** An eviction makes room unless the empty address expires before all others. */
  lemma EvictionMakesRoomUnless(before: map<string, int>, after: map<string, int>, limit: int, now: int)
    requires Evicted(before, after, limit, now)
    ensures limit >= 1 && |before| <= limit && !EmptyIsLeast(Unexpired(before, now)) ==> |after| < limit
  {
    var live := Unexpired(before, now);
    Fewer(live.Keys, before.Keys);
    assert |live| == |live.Keys| && |before| == |before.Keys|;
    if |live| >= limit && live != map[] {
      var order :| IsOrder(order, live.Keys) && after == Dropping(live, order);
      NothingIsDroppedIff(live);
      OldestIsVisited(live, order);
      if Oldest(live, order) != "" {
        SizeOfRest(live, Oldest(live, order));
      }
    }
  }

  /** A full cache is certain to have room after an eviction exactly if the empty address is not an
      unexpired entry that expires before all others, or fewer than limit entries are unexpired. */
  lemma EvictionMakesRoomIff(before: map<string, int>, limit: int, now: int)
    requires limit >= 1 && |before| <= limit
    ensures (forall after :: Evicted(before, after, limit, now) ==> |after| < limit)
       <==> !EmptyIsLeast(Unexpired(before, now)) || |Unexpired(before, now)| < limit
  {
    var live := Unexpired(before, now);
    if EmptyIsLeast(live) && |live| >= limit {
      NothingIsDroppedIff(live);
      assert Evicted(before, live, limit, now);
    }
    forall after | Evicted(before, after, limit, now) && (!EmptyIsLeast(live) || |live| < limit)
      ensures |after| < limit
    {
      EvictionMakesRoomUnless(before, after, limit, now);
    }
  }

  // --- One request. ---

  /** Redis's answer to "is there a ban". */
  datatype Answer = NotBanned | Banned | Unreachable

  /** The check in front of a request. Redis is asked only without a fresh clean answer, is trusted
      only when it answers, and only "not banned" is remembered. */
  method Admit(cache: BanCleanCache, ip: string, allowed: bool, answer: Answer, now: int) returns (forbidden: bool)
    requires cache.Valid()
    modifies cache`entries, cache`history
    ensures cache.Valid()
    ensures var asked := !allowed && !(ip in old(cache.entries) && now < old(cache.entries)[ip]);
      && (forbidden <==> asked && answer == Banned)
      && cache.history == old(cache.history) + (if asked && answer == NotBanned then [Marked(ip, now)] else [])
      && (!(asked && answer == NotBanned) ==> cache.entries == old(cache.entries))
    ensures !forbidden && answer == Banned && !allowed ==>
              exists at :: LastMarked(old(cache.history), ip, at) && at > now - cache.ttl
  {
    forbidden := false;
    if allowed {
      return;
    }
    var clean := cache.IsClean(ip, now);
    if !clean {
      match answer {
        case Unreachable =>
        case Banned => forbidden := true;
        case NotBanned => cache.MarkClean(ip, now);
      }
    }
  }
}
