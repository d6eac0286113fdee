/** The Redis script that counts an address's route misses in a window and bans it. */
module ScanStrikes {
  import opened Wrappers

  datatype Config = Config(threshold: int, window: int, banTime: int)

  /** The strike key: its count and when it expires. */
  datatype Strikes = Strikes(count: nat, expiresAt: int)

  /** The state after a miss at now, and whether it bans. */
  function Strike(c: Config, key: Option<Strikes>, now: int): (Option<Strikes>, bool) {
    var before := if key.Some? && now < key.value.expiresAt then key.value else Strikes(0, now);
    var s := Strikes(before.count + 1, if before.count == 0 then now + c.window else before.expiresAt);
    if s.count >= c.threshold then (None, true) else (Some(s), false)
  }

  /** The two keys of one address. */
  class ScannerKeys {
    var strikes: Option<Strikes>
    var bannedUntil: int

    constructor ()
      ensures strikes == None
    {
      strikes, bannedUntil := None, 0;
    }

    method Miss(c: Config, now: int) returns (count: nat, banned: bool)
      modifies this
      ensures (strikes, banned) == Strike(c, old(strikes), now)
      ensures if banned then count >= c.threshold else strikes.Some? && strikes.value.count == count
      ensures bannedUntil == if banned then now + c.banTime else old(bannedUntil)
    {
      if strikes.None? || now >= strikes.value.expiresAt {
        strikes := Some(Strikes(0, 0));
      }
      count := strikes.value.count + 1;
      strikes := Some(Strikes(count, if count == 1 then now + c.window else strikes.value.expiresAt));
      banned := count >= c.threshold;
      if banned {
        bannedUntil := now + c.banTime;
        strikes := None;
      }
    }
  }

  /** The strike key after the first k misses of one address. */
  function After(c: Config, times: seq<int>, k: nat): Option<Strikes>
    requires k <= |times|
  {
    if k == 0 then None else Strike(c, After(c, times, k - 1), times[k - 1]).0
  }

  predicate Bans(c: Config, times: seq<int>, k: nat)
    requires k < |times|
  {
    Strike(c, After(c, times, k), times[k]).1
  }

  ghost predicate Monotone(times: seq<int>) {
    forall i, j :: 0 <= i < j < |times| ==> times[i] <= times[j]
  }

  /** The count is that of the latest misses, and the window was opened by the first of them. */
  lemma {:induction false} CountsLatestMisses(c: Config, times: seq<int>, k: nat)
    requires k <= |times| && After(c, times, k).Some?
    ensures var s := After(c, times, k).value;
            1 <= s.count <= k && s.count < c.threshold && s.expiresAt == times[k - s.count] + c.window
  {
    if k > 1 && After(c, times, k - 1).Some? {
      CountsLatestMisses(c, times, k - 1);
    }
  }

  /** No one is banned for less than `threshold` misses within one window. */
  lemma BanMeansBurst(c: Config, times: seq<int>, k: nat)
    requires c.threshold >= 1 && c.window >= 1 && Monotone(times) && k < |times| && Bans(c, times, k)
    ensures k + 1 >= c.threshold && times[k] - times[k + 1 - c.threshold] < c.window
  {
    if After(c, times, k).Some? {
      CountsLatestMisses(c, times, k);
    }
  }

  /** While misses stay inside the open window and do not ban, each counts. */
  lemma {:induction false} Climb(c: Config, times: seq<int>, j: nat, n: nat)
    requires j + n < |times| && After(c, times, j + 1).Some?
    requires forall i :: j < i <= j + n ==> !Bans(c, times, i)
    requires forall i :: j < i <= j + n ==> times[i] < After(c, times, j + 1).value.expiresAt
    ensures After(c, times, j + 1 + n) ==
            Some(Strikes(After(c, times, j + 1).value.count + n, After(c, times, j + 1).value.expiresAt))
  {
    CountIsPositive(c, times, j + 1);
    if n > 0 {
      Climb(c, times, j, n - 1);
      var k := j + n;
      assert !Bans(c, times, k);
      CountOne(c, times, k);
    }
  }

  lemma CountOne(c: Config, times: seq<int>, k: nat)
    requires k < |times| && After(c, times, k).Some? && times[k] < After(c, times, k).value.expiresAt
    requires !Bans(c, times, k)
    ensures var s := After(c, times, k).value;
      After(c, times, k + 1) == Some(Strikes(s.count + 1, if s.count == 0 then times[k] + c.window else s.expiresAt))
  {
  }

  lemma CountIsPositive(c: Config, times: seq<int>, k: nat)
    requires 0 < k <= |times| && After(c, times, k).Some?
    ensures After(c, times, k).value.count > 0
  {
  }

  /** A window opened by miss j and filled with threshold - 1 more misses bans. */
  lemma FreshWindowFills(c: Config, times: seq<int>, j: nat)
    requires c.threshold >= 1 && Monotone(times) && j + c.threshold - 1 < |times|
    requires After(c, times, j + 1).Some?
    requires times[j + c.threshold - 1] < After(c, times, j + 1).value.expiresAt
    ensures exists i :: j < i <= j + c.threshold - 1 && Bans(c, times, i)
  {
    var n := c.threshold - 1;
    if forall i :: j < i <= j + n ==> !Bans(c, times, i) {
      Climb(c, times, j, n);
      CountsLatestMisses(c, times, j + 1);
      CountsLatestMisses(c, times, j + 1 + n);
    }
  }

  /** A miss that is not the first of its window leaves room for at most threshold - 2 more in it. */
  lemma OldWindowEnds(c: Config, times: seq<int>, k: nat)
    requires c.threshold >= 2 && Monotone(times) && k + c.threshold - 2 < |times|
    requires After(c, times, k + 1).Some? && After(c, times, k + 1).value.count >= 2
    requires forall i :: k <= i <= k + c.threshold - 2 ==> !Bans(c, times, i)
    ensures After(c, times, k + 1).value.expiresAt <= times[k + c.threshold - 2]
  {
    if After(c, times, k + 1 + c.threshold - 2).Some? {
      CountsLatestMisses(c, times, k + 1 + c.threshold - 2);
    }
    if times[k + c.threshold - 2] < After(c, times, k + 1).value.expiresAt {
      Climb(c, times, k, c.threshold - 2);
    }
  }

  /** And no one gets through with 2 * threshold - 2 misses in less than a window: windows are fixed,
      not sliding, so a burst can straddle two of them, but then it fills the second. */
  lemma DenseBurstBans(c: Config, times: seq<int>, k: nat)
    requires c.threshold >= 2 && Monotone(times) && k + 2 * c.threshold - 3 < |times|
    requires times[k + 2 * c.threshold - 3] - times[k] < c.window
    ensures exists i :: k <= i <= k + 2 * c.threshold - 3 && Bans(c, times, i)
  {
    if !Bans(c, times, k) {
      var s := After(c, times, k + 1).value;
      CountsLatestMisses(c, times, k + 1);
      if s.count == 1 {
        FreshWindowFills(c, times, k);
      } else if forall i :: k <= i <= k + c.threshold - 2 ==> !Bans(c, times, i) {
        OldWindowEnds(c, times, k);
        var j := FirstBeyond(times, k, k + c.threshold - 2, s.expiresAt);
        NextWindowBans(c, times, k, j);
      }
    }
  }

  lemma NextWindowBans(c: Config, times: seq<int>, k: nat, j: nat)
    requires c.threshold >= 2 && c.window >= 1 && Monotone(times) && k < j && j + c.threshold - 1 < |times|
    requires After(c, times, k + 1).Some? && forall i :: k < i <= j ==> !Bans(c, times, i)
    requires forall i :: k < i < j ==> times[i] < After(c, times, k + 1).value.expiresAt
    requires After(c, times, k + 1).value.expiresAt <= times[j]
    requires times[j + c.threshold - 1] - times[j] < c.window
    ensures exists i :: j < i <= j + c.threshold - 1 && Bans(c, times, i)
  {
    Climb(c, times, k, j - 1 - k);
    assert !Bans(c, times, j);
    FreshWindowFills(c, times, j);
  }

  lemma FirstBeyond(times: seq<int>, k: nat, last: nat, e: int) returns (j: nat)
    requires k <= last < |times| && times[last] >= e && times[k] < e
    ensures k < j <= last && times[j] >= e && forall i :: k < i < j ==> times[i] < e
  {
    j := k + 1;
    while times[j] < e
      invariant k < j <= last && forall i :: k < i < j ==> times[i] < e
      decreases last - j
    {
      j := j + 1;
    }
  }

  // --- Which misses ban, and the longest burst that passes. ---

  /** The miss that opened the window miss k counts in: a ban and the end of a window start anew. */
  function OpenedAt(c: Config, times: seq<int>, k: nat): (j: nat)
    requires c.threshold >= 1 && k < |times|
    ensures j <= k
  {
    if k == 0 then 0
    else
      var j := OpenedAt(c, times, k - 1);
      if k - 1 - j + 1 == c.threshold || times[k] >= times[j] + c.window then k else j
  }

  lemma {:induction false} CountSinceOpened(c: Config, times: seq<int>, k: nat)
    requires c.threshold >= 1 && k < |times|
    ensures var j := OpenedAt(c, times, k);
      k - j + 1 <= c.threshold && (Bans(c, times, k) <==> k - j + 1 == c.threshold)
      && (!Bans(c, times, k) ==> After(c, times, k + 1) == Some(Strikes(k - j + 1, times[j] + c.window)))
  {
    if k > 0 {
      CountSinceOpened(c, times, k - 1);
    }
  }

  /** A miss bans exactly if it is the threshold-th of its window. */
  lemma BansIffWindowIsFull(c: Config, times: seq<int>, k: nat)
    requires c.threshold >= 1 && k < |times|
    ensures Bans(c, times, k) <==> OpenedAt(c, times, k) == k + 1 - c.threshold
  {
    CountSinceOpened(c, times, k);
  }

  /** One miss, threshold - 2 at the end of its window, and threshold - 1 when the next may open. */
  function Straddling(c: Config): (times: seq<int>)
    requires c.threshold >= 2 && c.window >= 2
    ensures |times| == 2 * c.threshold - 2
  {
    seq(2 * c.threshold - 2, i requires 0 <= i < 2 * c.threshold - 2 =>
      if i == 0 then 0 else if i < c.threshold - 1 then c.window - 1 else c.window)
  }

  lemma {:induction false} StraddlingOpens(c: Config, k: nat)
    requires c.threshold >= 2 && c.window >= 2 && k < 2 * c.threshold - 2
    ensures OpenedAt(c, Straddling(c), k) == if k < c.threshold - 1 then 0 else c.threshold - 1
  {
    if k > 0 {
      StraddlingOpens(c, k - 1);
    }
  }

  /** One miss less than DenseBurstBans asks for is not enough, whatever the threshold and the window:
      2 * threshold - 3 misses within a window can pass, behind one that opened a window before. */
  lemma StraddlingBurstPasses(c: Config)
    requires c.threshold >= 2 && c.window >= 2
    ensures var times := Straddling(c);
      && Monotone(times) && times[|times| - 1] - times[1] < c.window
      && forall k :: 0 <= k < |times| ==> !Bans(c, times, k)
  {
    forall k | 0 <= k < |Straddling(c)| ensures !Bans(c, Straddling(c), k) {
      StraddlingOpens(c, k);
      BansIffWindowIsFull(c, Straddling(c), k);
    }
  }
}
