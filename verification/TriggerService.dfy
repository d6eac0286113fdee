/** One process's view of the trigger words: a matcher and the maps beside it, replaced
    together, and the filters applied to matched ids. */
module TriggerService {
  import opened Wrappers
  import opened AhoCorasick

  /** The stored action; Unset is the empty string. */
  datatype Action = Deny | Capture | Omit | Unset | Unknown(name: string)

  datatype Trigger = Trigger(id: nat, word: string, action: Action)

  /** The listed triggers by id; of two with one id the later counts. */
  function WordsOf(all: seq<Trigger>): (words: map<nat, string>)
    ensures forall id :: id in words <==> exists t :: t in all && t.id == id
  {
    if all == [] then map[]
    else
      var last := all[|all| - 1];
      WordsOf(all[..|all| - 1])[last.id := last.word]
  }

  function ActionsOf(all: seq<Trigger>): (actions: map<nat, Action>)
    ensures actions.Keys == WordsOf(all).Keys
  {
    if all == [] then map[]
    else
      var last := all[|all| - 1];
      ActionsOf(all[..|all| - 1])[last.id := last.action]
  }

  predicate UniqueIds(all: seq<Trigger>) {
    forall j, k :: 0 <= j < k < |all| ==> all[j].id != all[k].id
  }

  /** With ids unique, as the database key makes them, each trigger keeps its own word and action. */
  lemma {:induction false} EveryTriggerIsInstalled(all: seq<Trigger>, i: nat)
    requires i < |all| && UniqueIds(all)
    ensures all[i].id in WordsOf(all) && WordsOf(all)[all[i].id] == all[i].word
    ensures ActionsOf(all)[all[i].id] == all[i].action
  {
    if i < |all| - 1 {
      EveryTriggerIsInstalled(all[..|all| - 1], i);
    }
  }

  function ActionOf(actions: map<nat, Action>, id: nat): Action {
    if id in actions then actions[id] else Unset
  }

  function Filter(actions: map<nat, Action>, ids: seq<nat>, keep: set<Action>): (kept: seq<nat>)
    ensures forall id :: id in kept <==> id in ids && ActionOf(actions, id) in keep
  {
    if ids == [] then []
    else if ActionOf(actions, ids[0]) in keep then [ids[0]] + Filter(actions, ids[1..], keep)
    else Filter(actions, ids[1..], keep)
  }

  function DenyIDs(actions: map<nat, Action>, ids: seq<nat>): seq<nat> {
    Filter(actions, ids, {Unset, Deny})
  }

  function CaptureIDs(actions: map<nat, Action>, ids: seq<nat>): seq<nat> {
    Filter(actions, ids, {Capture})
  }

  function OmitIDs(actions: map<nat, Action>, ids: seq<nat>): seq<nat> {
    Filter(actions, ids, {Omit})
  }

  /** The three filters split the matched ids: no id is lost or counted twice as long as every
      stored action is one of the known ones. An id that is no longer in the maps, its trigger
      deleted since the match, is denied. */
  lemma FiltersPartition(actions: map<nat, Action>, ids: seq<nat>)
    requires forall id :: id in ids ==> !ActionOf(actions, id).Unknown?
    ensures multiset(ids) ==
            multiset(DenyIDs(actions, ids)) + multiset(CaptureIDs(actions, ids)) + multiset(OmitIDs(actions, ids))
    ensures forall id :: id in ids && id !in actions ==> id in DenyIDs(actions, ids)
  {
    FiltersSplit(actions, ids, {Unset, Deny}, {Capture}, {Omit});
  }

  predicate OneOfThree(action: Action, a: set<Action>, b: set<Action>, c: set<Action>) {
    if action in a then action !in b + c else (action in b <==> action !in c)
  }

  lemma {:induction false} FiltersSplit(actions: map<nat, Action>, ids: seq<nat>, a: set<Action>, b: set<Action>,
                                        c: set<Action>)
    requires forall id :: id in ids ==> OneOfThree(ActionOf(actions, id), a, b, c)
    ensures multiset(ids)
         == multiset(Filter(actions, ids, a)) + multiset(Filter(actions, ids, b)) + multiset(Filter(actions, ids, c))
  {
    if ids != [] {
      assert ids == [ids[0]] + ids[1..];
      FiltersSplit(actions, ids[1..], a, b, c);
    }
  }

  /** What the filters return, by the listed triggers: Deny those whose trigger says so, says nothing or
      is gone, the others those whose trigger says so. */
  lemma FiltersAct(all: seq<Trigger>, ids: seq<nat>, id: nat)
    requires UniqueIds(all)
    ensures id in DenyIDs(ActionsOf(all), ids) <==>
      id in ids && forall t :: t in all && t.id == id ==> t.action == Deny || t.action == Unset
    ensures id in CaptureIDs(ActionsOf(all), ids) <==>
      id in ids && exists t :: t in all && t.id == id && t.action == Capture
    ensures id in OmitIDs(ActionsOf(all), ids) <==>
      id in ids && exists t :: t in all && t.id == id && t.action == Omit
  {
    forall t | t in all && t.id == id ensures id in ActionsOf(all) && ActionsOf(all)[id] == t.action {
      var i :| 0 <= i < |all| && all[i] == t;
      EveryTriggerIsInstalled(all, i);
    }
  }

  /** The ids kept stand in the order in which they came. */
  predicate InOrder(kept: seq<nat>, ids: seq<nat>)
    decreases |ids|
  {
    kept == [] || (ids != [] && ((kept[0] == ids[0] && InOrder(kept[1..], ids[1..])) || InOrder(kept, ids[1..])))
  }

  lemma {:induction false} FilterKeepsOrder(actions: map<nat, Action>, ids: seq<nat>, keep: set<Action>)
    ensures InOrder(Filter(actions, ids, keep), ids)
  {
    if ids != [] {
      FilterKeepsOrder(actions, ids[1..], keep);
      var rest := Filter(actions, ids[1..], keep);
      assert ([ids[0]] + rest)[1..] == rest;
    }
  }

  lemma FiltersKeepOrder(actions: map<nat, Action>, ids: seq<nat>)
    ensures InOrder(DenyIDs(actions, ids), ids)
    ensures InOrder(CaptureIDs(actions, ids), ids) && InOrder(OmitIDs(actions, ids), ids)
  {
    FilterKeepsOrder(actions, ids, {Unset, Deny});
    FilterKeepsOrder(actions, ids, {Capture});
    FilterKeepsOrder(actions, ids, {Omit});
  }

  class TriggerService {
    const lower: char -> char
    var matcher: AcMatcher
    var wordByID: map<nat, string>
    var actionByID: map<nat, Action>
    var lastSeenVersion: int

    ghost predicate Valid()
      reads this, matcher, matcher.repr
    {
      && matcher.Valid() && matcher.lower == lower
      && matcher.words == wordByID && actionByID.Keys == wordByID.Keys
    }

    constructor (lower: char -> char)
      ensures Valid() && wordByID == map[] && lastSeenVersion == 0
      ensures this.lower == lower && fresh(matcher) && fresh(matcher.repr)
    {
      this.lower := lower;
      matcher := new AcMatcher(map[], lower);
      wordByID, actionByID, lastSeenVersion := map[], map[], 0;
    }

    /** Replaces the matcher by one for the listed triggers. A failed listing (None) keeps the old one. */
    method Rebuild(listing: Option<seq<Trigger>>) returns (ok: bool)
      requires Valid()
      modifies this`matcher, this`wordByID, this`actionByID
      ensures Valid() && ok == listing.Some?
      ensures ok ==> wordByID == WordsOf(listing.value) && actionByID == ActionsOf(listing.value)
      ensures !ok ==> wordByID == old(wordByID) && actionByID == old(actionByID) && matcher == old(matcher)
    {
      match listing
      case None => ok := false;
      case Some(all) =>
        wordByID := WordsOf(all);
        actionByID := ActionsOf(all);
        matcher := new AcMatcher(wordByID, lower);
        ok := true;
    }

    /** Compares the version counter with the last one acted upon. The cursor moves only with a
        successful rebuild; an unreadable counter (None) changes nothing. */
    method CheckVersion(version: Option<int>, listing: Option<seq<Trigger>>)
      requires Valid()
      modifies this
      ensures Valid()
      ensures if version.Some? && version.value != old(lastSeenVersion) && listing.Some?
              then lastSeenVersion == version.value && wordByID == WordsOf(listing.value)
                   && actionByID == ActionsOf(listing.value)
              else lastSeenVersion == old(lastSeenVersion) && wordByID == old(wordByID)
                   && actionByID == old(actionByID) && matcher == old(matcher)
    {
      if version.Some? && version.value != lastSeenVersion {
        var ok := Rebuild(listing);
        if ok {
          lastSeenVersion := version.value;
        }
      }
    }

    /** The ids whose word occurs in text, letter case aside. */
    method Check(text: string) returns (ids: seq<nat>)
      requires Valid()
      ensures NoDuplicates(ids)
      ensures forall id :: id in ids ==> id in wordByID
      ensures forall id :: id in wordByID && wordByID[id] != [] ==>
                (id in ids <==> exists i: nat :: FoundAt(lower, wordByID[id], text, i))
    {
      ghost var failSteps;
      ids, failSteps := matcher.Match(text);
    }
  }
}
