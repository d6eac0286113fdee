/** Which model stands for a tier: the models are sorted by context length, longest first, and
    models of the same length keep their order. */
module ModelTiers {
  import opened Wrappers
  import opened TargetModels

  const TIER_ORDER := ["opus", "sonnet", "haiku"]

  /** Behind all models of at least its length. */
  function Insert(sorted: seq<TargetModel>, m: TargetModel): seq<TargetModel> {
    var n := |sorted| - 1;
    if n < 0 || m.contextLength <= sorted[n].contextLength then sorted + [m]
    else Insert(sorted[..n], m) + [sorted[n]]
  }

  function Sorted(models: seq<TargetModel>): seq<TargetModel> {
    if models == [] then [] else Insert(Sorted(models[..|models| - 1]), models[|models| - 1])
  }

  predicate Descending(models: seq<TargetModel>) {
    forall i, j :: 0 <= i < j < |models| ==> models[i].contextLength >= models[j].contextLength
  }

  function OneOfLength(m: TargetModel, length: int): seq<TargetModel> {
    if m.contextLength == length then [m] else []
  }

  /** The models of one length, in order. */
  function OfLength(models: seq<TargetModel>, length: int): seq<TargetModel> {
    if models == [] then []
    else
      var n := |models| - 1;
      OfLength(models[..n], length) + OneOfLength(models[n], length)
  }

  function CountLonger(models: seq<TargetModel>, length: int): nat {
    if models == [] then 0
    else CountLonger(models[..|models| - 1], length) + if models[|models| - 1].contextLength > length then 1 else 0
  }

  // --- What sorting does. ---

  lemma {:induction false} InsertKeeps(sorted: seq<TargetModel>, m: TargetModel)
    requires Descending(sorted)
    ensures |Insert(sorted, m)| == |sorted| + 1 && Descending(Insert(sorted, m))
    ensures forall x :: x in Insert(sorted, m) ==> x == m || x in sorted
  {
    var n := |sorted| - 1;
    if !(n < 0 || m.contextLength <= sorted[n].contextLength) {
      InsertKeeps(sorted[..n], m);
      var front := Insert(sorted[..n], m);
      forall i | 0 <= i < |front| ensures front[i].contextLength >= sorted[n].contextLength {
        assert front[i] in front;
        if front[i] != m {
          var k :| 0 <= k < n && sorted[k] == front[i];
        }
      }
    }
  }

  lemma OneBehind(models: seq<TargetModel>, m: TargetModel, length: int)
    ensures OfLength(models + [m], length) == OfLength(models, length) + OneOfLength(m, length)
    ensures CountLonger(models + [m], length) == CountLonger(models, length) + if m.contextLength > length then 1 else 0
  {
    assert (models + [m])[..|models|] == models;
  }

  lemma Swap(a: seq<TargetModel>, b: seq<TargetModel>, c: seq<TargetModel>)
    requires b == [] || c == []
    ensures (a + b) + c == (a + c) + b
  {
  }

  lemma {:induction false} InsertCounts(sorted: seq<TargetModel>, m: TargetModel, length: int)
    ensures OfLength(Insert(sorted, m), length) == OfLength(sorted, length) + OneOfLength(m, length)
    ensures CountLonger(Insert(sorted, m), length)
         == CountLonger(sorted, length) + if m.contextLength > length then 1 else 0
  {
    var n := |sorted| - 1;
    if n < 0 || m.contextLength <= sorted[n].contextLength {
      OneBehind(sorted, m, length);
    } else {
      var front, last := sorted[..n], sorted[n];
      InsertCounts(front, m, length);
      assert sorted == front + [last];
      OneBehind(front, last, length);
      OneBehind(Insert(front, m), last, length);
      Swap(OfLength(front, length), OneOfLength(m, length), OneOfLength(last, length));
    }
  }

  /** Sorted, and stable: the models of each length are those given, in the order given. */
  lemma {:induction false} SortedIsStable(models: seq<TargetModel>, length: int)
    ensures |Sorted(models)| == |models| && Descending(Sorted(models))
    ensures OfLength(Sorted(models), length) == OfLength(models, length)
    ensures CountLonger(Sorted(models), length) == CountLonger(models, length)
  {
    if models != [] {
      var n := |models| - 1;
      SortedIsStable(models[..n], length);
      InsertKeeps(Sorted(models[..n]), models[n]);
      InsertCounts(Sorted(models[..n]), models[n], length);
    }
  }

  lemma {:induction false} NoneOfLength(models: seq<TargetModel>, length: int)
    requires forall i :: 0 <= i < |models| ==> models[i].contextLength != length
    ensures OfLength(models, length) == []
  {
    if models != [] {
      NoneOfLength(models[..|models| - 1], length);
    }
  }

  /** The last model is the last of its length, and plays no part for another. */
  lemma LastOfLength(models: seq<TargetModel>, length: int)
    requires models != []
    ensures var all, last := OfLength(models, length), models[|models| - 1];
      var front := OfLength(models[..|models| - 1], length);
      if last.contextLength == length
      then all != [] && all[..|all| - 1] == front && all[|all| - 1] == last
      else all == front
  {
  }

  /** The end of a non-empty descending list is the last model of the least length there is. */
  lemma SameEnd(a: seq<TargetModel>, b: seq<TargetModel>)
    requires a != [] && Descending(b)
    requires OfLength(a, a[|a| - 1].contextLength) == OfLength(b, a[|a| - 1].contextLength)
    ensures b != [] && b[|b| - 1].contextLength <= a[|a| - 1].contextLength
  {
    EndIsThere(a);
    EndIsNoLonger(b, a[|a| - 1].contextLength);
  }

  lemma EndIsNoLonger(b: seq<TargetModel>, length: int)
    requires Descending(b) && OfLength(b, length) != []
    ensures b != [] && b[|b| - 1].contextLength <= length
  {
    if b[|b| - 1].contextLength > length {
      NoneOfLength(b, length);
    }
  }

  lemma EndIsThere(a: seq<TargetModel>)
    requires a != []
    ensures OfLength(a, a[|a| - 1].contextLength) != []
  {
  }

  /** Nothing else is sorted and stable. */
  lemma {:induction false} StableIsUnique(a: seq<TargetModel>, b: seq<TargetModel>)
    requires Descending(a) && Descending(b)
    requires forall length :: OfLength(a, length) == OfLength(b, length)
    ensures a == b
  {
    if a == [] {
      if b != [] { SameEnd(b, a); }
    } else {
      SameEnd(a, b);
      SameEnd(b, a);
      var m, n := |a| - 1, |b| - 1;
      var least := a[m].contextLength;
      LastOfLength(a, least);
      LastOfLength(b, least);
      forall length ensures OfLength(a[..m], length) == OfLength(b[..n], length) {
        LastOfLength(a, length);
        LastOfLength(b, length);
        assert OfLength(a, length) == OfLength(b, length);
      }
      StableIsUnique(a[..m], b[..n]);
      assert a == a[..m] + [a[m]] && b == b[..n] + [b[n]];
    }
  }

  // --- The tiers. ---

  /** The place of a tier in the order. */
  function TierIndex(tier: string): int {
    if tier == "opus" then 0 else if tier == "sonnet" then 1 else if tier == "haiku" then 2 else -1
  }

  function Best(models: seq<TargetModel>, tier: string): Option<TargetModel> {
    var t := TierIndex(tier);
    if 0 <= t < |Sorted(models)| then Some(Sorted(models)[t]) else None
  }

  lemma InsertStops(sorted: seq<TargetModel>, j: nat, m: TargetModel)
    requires j <= |sorted| && (j == 0 || m.contextLength <= sorted[j - 1].contextLength)
    ensures Insert(sorted[..j], m) + sorted[j..] == sorted[..j] + [m] + sorted[j..]
  {
  }

  lemma InsertPasses(sorted: seq<TargetModel>, j: nat, m: TargetModel)
    requires 0 < j <= |sorted| && m.contextLength > sorted[j - 1].contextLength
    ensures Insert(sorted[..j], m) + sorted[j..] == Insert(sorted[..j - 1], m) + sorted[j - 1..]
  {
    assert sorted[..j][..j - 1] == sorted[..j - 1] && sorted[j - 1..] == [sorted[j - 1]] + sorted[j..];
  }

  /** A sorted list with a gap at j that m is in, and the rest. */
  function WithGap(sorted: seq<TargetModel>, j: nat, m: TargetModel, rest: seq<TargetModel>): seq<TargetModel>
    requires j <= |sorted|
  {
    sorted[..j] + [m] + sorted[j..] + rest
  }

  lemma GapAt(sorted: seq<TargetModel>, j: nat, m: TargetModel, rest: seq<TargetModel>)
    requires 0 < j <= |sorted|
    ensures var a := WithGap(sorted, j, m, rest);
      a[j] == m && a[j - 1] == sorted[j - 1] && a[j := a[j - 1]][j - 1 := m] == WithGap(sorted, j - 1, m, rest)
  {
  }

  /** One insertion, by swaps towards the front. */
  method SiftForward(a: array<TargetModel>, i: nat)
    requires i < a.Length
    modifies a
    ensures a[..] == Insert(old(a[..])[..i], old(a[..])[i]) + old(a[..])[i + 1..]
  {
    var j := i;
    ghost var m, before, rest := a[..][i], a[..][..i], a[..][i + 1..];
    StartsThere(a[..], i);
    InsertStart(before, m);
    while j > 0 && a[j].contextLength > a[j - 1].contextLength
      invariant 0 <= j <= i && a[..] == WithGap(before, j, m, rest)
      invariant Insert(before, m) == Insert(before[..j], m) + before[j..]
    {
      GapAt(before, j, m, rest);
      InsertPasses(before, j, m);
      a[j], a[j - 1] := a[j - 1], a[j];
      j := j - 1;
    }
    if j > 0 {
      GapAt(before, j, m, rest);
    }
    InsertStops(before, j, m);
  }

  lemma StartsThere(a: seq<TargetModel>, i: nat)
    requires i < |a|
    ensures a == WithGap(a[..i], i, a[i], a[i + 1..])
  {
  }

  lemma InsertStart(sorted: seq<TargetModel>, m: TargetModel)
    ensures Insert(sorted, m) == Insert(sorted[..|sorted|], m) + sorted[|sorted|..]
  {
    assert sorted[..|sorted|] == sorted && Insert(sorted, m) + [] == Insert(sorted, m);
  }

  method Copy(models: seq<TargetModel>) returns (a: array<TargetModel>)
    ensures fresh(a) && a[..] == models
  {
    a := new TargetModel[|models|](i requires 0 <= i < |models| => models[i]);
  }

  lemma Around(s: seq<TargetModel>, r: seq<TargetModel>)
    requires r != []
    ensures (s + r)[..|s|] == s && (s + r)[|s|] == r[0] && (s + r)[|s| + 1..] == r[1..]
  {
  }

  /** The list after some rounds: what was inserted, and the rest. */
  function PartlySorted(models: seq<TargetModel>, i: nat): (p: seq<TargetModel>)
    requires i <= |models|
  {
    Sorted(models[..i]) + models[i..]
  }

  lemma NextRound(models: seq<TargetModel>, i: nat)
    requires i < |models|
    ensures |Sorted(models[..i])| == i && |PartlySorted(models, i)| == |models|
    ensures var p := PartlySorted(models, i);
      Insert(p[..i], p[i]) + p[i + 1..] == PartlySorted(models, i + 1)
  {
    SortedIsStable(models[..i], 0);
    Around(Sorted(models[..i]), models[i..]);
    assert models[..i + 1][..i] == models[..i] && models[i..][1..] == models[i + 1..];
  }

  lemma FirstRound(models: seq<TargetModel>)
    requires models != []
    ensures PartlySorted(models, 1) == models
  {
    OneIsSorted(models[..1], models[0]);
    Together(models[0], models[1..], models);
  }

  lemma Together(m: TargetModel, rest: seq<TargetModel>, models: seq<TargetModel>)
    requires models != [] && m == models[0] && rest == models[1..]
    ensures [m] + rest == models
  {
  }

  lemma LastRound(models: seq<TargetModel>)
    ensures PartlySorted(models, |models|) == Sorted(models)
  {
    assert models[..|models|] == models && models[|models|..] == [];
    assert Sorted(models) + [] == Sorted(models);
  }

  lemma OneIsSorted(one: seq<TargetModel>, m: TargetModel)
    requires one == [m]
    ensures Sorted(one) == [m]
  {
    assert one[..0] == [] && [] + [m] == [m];
  }

  /** Insertion sort of a copy. */
  method SortedCopy(models: seq<TargetModel>) returns (sorted: array<TargetModel>)
    ensures fresh(sorted) && sorted[..] == Sorted(models)
  {
    sorted := Copy(models);
    LastRound(models);
    if models != [] {
      FirstRound(models);
    }
    var i := 1;
    while i < sorted.Length
      invariant fresh(sorted) && sorted.Length == |models| && 1 <= i && (i <= |models| || models == [])
      invariant sorted[..] == if models == [] then [] else PartlySorted(models, i)
    {
      NextRound(models, i);
      SiftForward(sorted, i);
      i := i + 1;
    }
  }

  method FindBestModelForTier(models: seq<TargetModel>, tier: string) returns (best: Option<TargetModel>)
    ensures best == Best(models, tier)
  {
    var sorted := SortedCopy(models);
    assert TIER_ORDER[0] == "opus" && TIER_ORDER[1] == "sonnet" && TIER_ORDER[2] == "haiku";
    var index := -1;
    for i := 0 to |TIER_ORDER|
      invariant index == -1 && forall k :: 0 <= k < i ==> TIER_ORDER[k] != tier
    {
      if TIER_ORDER[i] == tier {
        index := i;
        break;
      }
    }
    if index < 0 || index >= sorted.Length {
      return None;
    }
    return Some(sorted[index]);
  }

  lemma {:induction false} LongerInDescending(models: seq<TargetModel>, t: nat)
    requires Descending(models) && t < |models|
    ensures CountLonger(models, models[t].contextLength) <= t
    ensures forall length :: length < models[t].contextLength ==> CountLonger(models, length) > t
  {
    FewLonger(models, t, models[t].contextLength);
    forall length | length < models[t].contextLength ensures CountLonger(models, length) > t {
      ManyLonger(models, t, length);
    }
  }

  lemma {:induction false} FewLonger(models: seq<TargetModel>, t: nat, length: int)
    requires t <= |models| && forall i :: t <= i < |models| ==> models[i].contextLength <= length
    ensures CountLonger(models, length) <= t
  {
    if |models| > t {
      FewLonger(models[..|models| - 1], t, length);
    } else if t > 0 {
      FewLonger(models[..t - 1], t - 1, length);
    }
  }

  lemma {:induction false} ManyLonger(models: seq<TargetModel>, t: nat, length: int)
    requires t < |models| && forall i :: 0 <= i <= t ==> models[i].contextLength > length
    ensures CountLonger(models, length) > t
  {
    var n := |models| - 1;
    if n > t {
      ManyLonger(models[..n], t, length);
    } else if t > 0 {
      ManyLonger(models[..n], t - 1, length);
    }
  }

  /** The tier stands at that place of the order. */
  predicate IsTier(tier: string, t: nat) {
    (tier == "opus" && t == 0) || (tier == "sonnet" && t == 1) || (tier == "haiku" && t == 2)
  }

  lemma TierIs(tier: string)
    ensures TierIndex(tier) >= 0 ==> IsTier(tier, TierIndex(tier))
    ensures forall t: nat :: IsTier(tier, t) ==> TierIndex(tier) == t
  {
    assert "opus"[0] == 'o' && "sonnet"[0] == 's' && "haiku"[0] == 'h';
  }

  /** The model of the tier at place t is outdone in length by at most t of the models given, and
      more than t of them outdo anything shorter. A tier stays empty exactly for want of models. */
  lemma TierRank(models: seq<TargetModel>, tier: string)
    ensures Best(models, tier).None? <==> forall t: nat :: IsTier(tier, t) ==> |models| <= t
    ensures Best(models, tier).Some? ==>
      var length := Best(models, tier).value.contextLength;
      exists t: nat :: IsTier(tier, t) && CountLonger(models, length) <= t &&
        forall shorter :: shorter < length ==> CountLonger(models, shorter) > t
  {
    SortedIsStable(models, 0);
    TierIs(tier);
    var t := TierIndex(tier);
    if 0 <= t < |models| {
      PlaceRank(models, t);
    }
  }

  lemma PlaceRank(models: seq<TargetModel>, t: nat)
    requires t < |Sorted(models)|
    ensures var length := Sorted(models)[t].contextLength;
      && CountLonger(models, length) <= t
      && forall shorter :: shorter < length ==> CountLonger(models, shorter) > t
  {
    var length := Sorted(models)[t].contextLength;
    SortedIsStable(models, length);
    LongerInDescending(Sorted(models), t);
    forall shorter | shorter < length ensures CountLonger(models, shorter) > t {
      SortedIsStable(models, shorter);
    }
  }

  lemma {:induction false} SortedAreModels(models: seq<TargetModel>)
    ensures forall m :: m in Sorted(models) ==> m in models
  {
    if models != [] {
      var n := |models| - 1;
      SortedIsStable(models[..n], 0);
      SortedAreModels(models[..n]);
      InsertKeeps(Sorted(models[..n]), models[n]);
    }
  }

  /** The last tier is a shortest model exactly if at most two models are longer than the shortest. */
  lemma HaikuIsShortestIff(models: seq<TargetModel>, shortest: TargetModel)
    requires |models| >= 3
    requires shortest in models && forall m :: m in models ==> m.contextLength >= shortest.contextLength
    ensures Best(models, "haiku").Some?
    ensures Best(models, "haiku").value.contextLength == shortest.contextLength
       <==> CountLonger(models, shortest.contextLength) <= 2
  {
    TierIs("haiku");
    assert IsTier("haiku", 2);
    SortedIsStable(models, 0);
    PlaceRank(models, 2);
    SortedAreModels(models);
    assert Sorted(models)[2] in Sorted(models);
  }
}
