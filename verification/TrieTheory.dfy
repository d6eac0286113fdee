/** The words and paths of a trie, and the two notions the trigger automaton
    computes with: the longest suffix that is a trie path, and the ids of the
    words ending at a position. Nothing here mentions nodes or links. */
module TrieTheory {

  /** The path of a node's parent. */
  ghost function Init(p: string): string
    requires p != []
  {
    p[..|p| - 1]
  }

  /** The rune on the edge from the parent. */
  ghost function Last(p: string): char
    requires p != []
  {
    p[|p| - 1]
  }

  ghost predicate PrefixClosed(t: set<string>) {
    [] in t && forall p {:trigger Init(p)} :: p in t && p != [] ==> Init(p) in t
  }

  lemma TakeOneMore(w: string, k: nat)
    requires k < |w|
    ensures w[..k + 1] == w[..k] + [w[k]]
  {
  }

  ghost predicate Suffix(s: string, x: string) {
    |s| <= |x| && x[|x| - |s|..] == s
  }

  ghost predicate OccursAt(w: string, x: string, i: nat) {
    i + |w| <= |x| && x[i..i + |w|] == w
  }

  /** w occurs in x as a contiguous substring: the naive reading of a match. */
  ghost predicate Occurs(w: string, x: string) {
    exists i: nat :: OccursAt(w, x, i)
  }

  lemma SuffixOfTail(u: string, x: string)
    requires x != []
    ensures Suffix(u, x[1..]) <==> Suffix(u, x) && |u| < |x|
  {
    if |u| < |x| {
      assert x[1..][|x| - 1 - |u|..] == x[|x| - |u|..];
    }
  }

  /** The longest suffix of x (x itself included) that is a path of the trie. */
  ghost function LongestSuffix(t: set<string>, x: string): (s: string)
    requires [] in t
    ensures s in t && |s| <= |x|
  {
    if x in t then x else LongestSuffix(t, x[1..])
  }

  /** The longest proper suffix of p that is a path of the trie. */
  ghost function Fail(t: set<string>, p: string): (s: string)
    requires [] in t
    ensures s in t && (p != [] ==> |s| < |p|)
  {
    if p == [] then [] else LongestSuffix(t, p[1..])
  }

  /** A path is a suffix of x exactly if it is a suffix of the longest such path:
      LongestSuffix is a suffix of x, and no suffix of x in the trie is longer. */
  lemma {:induction false} SuffixThroughLongest(t: set<string>, u: string, x: string)
    requires [] in t && u in t
    ensures Suffix(u, x) <==> Suffix(u, LongestSuffix(t, x))
  {
    if x !in t {
      SuffixOfTail(u, x);
      SuffixThroughLongest(t, u, x[1..]);
    }
  }

  /** Words ending at p are p itself or end at the fail link of p. */
  lemma SuffixThroughFail(t: set<string>, u: string, p: string)
    requires [] in t && u in t && p != []
    ensures Suffix(u, p) <==> u == p || Suffix(u, Fail(t, p))
  {
    SuffixOfTail(u, p);
    SuffixThroughLongest(t, u, p[1..]);
  }

  /** Fail(t, p) is what its name says: a proper suffix of p in t, and the longest one. */
  lemma FailIsLongestProperSuffix(t: set<string>, p: string)
    requires [] in t && p != []
    ensures Fail(t, p) in t && Suffix(Fail(t, p), p) && |Fail(t, p)| < |p|
    ensures forall u :: u in t && Suffix(u, p) && u != p ==> |u| <= |Fail(t, p)|
  {
    SuffixThroughFail(t, Fail(t, p), p);
    forall u | u in t && Suffix(u, p) && u != p
      ensures |u| <= |Fail(t, p)|
    {
      SuffixThroughFail(t, u, p);
    }
  }

  /** Reading one more rune only needs the longest suffix kept so far. */
  lemma {:induction false} LongestSuffixStep(t: set<string>, x: string, r: char)
    requires PrefixClosed(t)
    ensures LongestSuffix(t, x + [r]) == LongestSuffix(t, LongestSuffix(t, x) + [r])
  {
    if x !in t {
      assert Init(x + [r]) == x;
      assert (x + [r])[1..] == x[1..] + [r];
      LongestSuffixStep(t, x[1..], r);
    }
  }

  /** When s cannot be extended by r, the next candidate is the fail link of s. */
  lemma FollowFail(t: set<string>, s: string, r: char)
    requires PrefixClosed(t) && s in t && s + [r] !in t
    ensures s == [] ==> LongestSuffix(t, s + [r]) == []
    ensures s != [] ==> LongestSuffix(t, s + [r]) == LongestSuffix(t, Fail(t, s) + [r])
  {
    if s == [] {
      assert (s + [r])[1..] == [];
    } else {
      assert (s + [r])[1..] == s[1..] + [r];
      LongestSuffixStep(t, s[1..], r);
    }
  }

  /** The fail link of a child is found by reading its rune from the parent's fail link. */
  lemma FailOfChild(t: set<string>, p: string, r: char)
    requires PrefixClosed(t) && p in t && p != []
    ensures Fail(t, p + [r]) == LongestSuffix(t, Fail(t, p) + [r])
  {
    assert (p + [r])[1..] == p[1..] + [r];
    LongestSuffixStep(t, p[1..], r);
  }

  lemma OccursGrows(w: string, x: string, r: char)
    requires Occurs(w, x) || Suffix(w, x + [r])
    ensures Occurs(w, x + [r])
  {
    var y := x + [r];
    if Suffix(w, y) {
      assert OccursAt(w, y, |y| - |w|);
    } else {
      var i: nat :| OccursAt(w, x, i);
      assert y[i..i + |w|] == x[i..i + |w|];
      assert OccursAt(w, y, i);
    }
  }

  lemma OccursEndsSomewhere(w: string, x: string, r: char)
    requires w != [] && Occurs(w, x + [r])
    ensures Occurs(w, x) || Suffix(w, x + [r])
  {
    var y := x + [r];
    var i: nat :| OccursAt(w, y, i);
    if i + |w| == |y| {
      assert Suffix(w, y);
    } else {
      assert y[i..i + |w|] == x[i..i + |w|];
      assert OccursAt(w, x, i);
    }
  }

  /** An occurrence ends somewhere: either already in x or at the rune just read. */
  lemma OccursStep(w: string, x: string, r: char)
    requires w != []
    ensures Occurs(w, x + [r]) <==> Occurs(w, x) || Suffix(w, x + [r])
  {
    if Occurs(w, x) || Suffix(w, x + [r]) {
      OccursGrows(w, x, r);
    }
    if Occurs(w, x + [r]) {
      OccursEndsSomewhere(w, x, r);
    }
  }
}
