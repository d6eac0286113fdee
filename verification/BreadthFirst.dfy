/** The order in which a breadth-first queue visits the paths of a trie. */
module BreadthFirst {
  import opened TrieTheory

  ghost predicate Queue(t: set<string>, q: seq<string>) {
    && (forall p :: p in q ==> p in t && p != [] && |p| <= |q[0]| + 1)
    && (forall i, j :: 0 <= i < j < |q| ==> q[i] != q[j] && |q[i]| <= |q[j]|)
  }

  /** q is the queue and done the paths already expanded: the queue holds exactly the
      unexpanded children of expanded paths, by depth, spanning at most two depths, and
      every path shallower than its head has been expanded. */
  ghost predicate Frontier(t: set<string>, q: seq<string>, done: set<string>) {
    && [] in done && done <= t && Queue(t, q)
    && (forall p :: p in q ==> p !in done)
    && (forall p {:trigger Init(p)} :: p in t && p != [] ==> (p in done || p in q <==> Init(p) in done))
    && (q != [] ==> forall p :: p in t && |p| < |q[0]| ==> p in done)
  }

  /** The children of the head, all distinct. */
  ghost predicate ChildrenOf(t: set<string>, parent: string, added: seq<string>) {
    && (forall i :: 0 <= i < |added| ==> added[i] in t && added[i] != [] && Init(added[i]) == parent)
    && (forall i, j :: 0 <= i < j < |added| ==> added[i] != added[j])
    && (forall p {:trigger Init(p)} :: p in t && p != [] && Init(p) == parent ==> p in added)
  }

  lemma Start(t: set<string>, added: seq<string>)
    requires PrefixClosed(t) && ChildrenOf(t, [], added)
    ensures Frontier(t, added, {[]})
  {
    forall p | p in t && p != []
      ensures p in {[]} || p in added <==> Init(p) in {[]}
    {
    }
  }

  /** Everything no deeper than the head of the queue has been expanded or is queued. */
  lemma ShallowSeen(t: set<string>, q: seq<string>, done: set<string>, p: string)
    requires PrefixClosed(t) && Frontier(t, q, done) && q != [] && p in t && |p| <= |q[0]|
    ensures p in done || p in q
  {
    if p != [] {
      assert Init(p) in t && |Init(p)| < |q[0]|;
    }
  }

  lemma NewOnQueue(t: set<string>, q: seq<string>, done: set<string>, added: seq<string>)
    requires Frontier(t, q, done) && q != [] && ChildrenOf(t, q[0], added)
    ensures forall p :: p in added ==> p !in done && p !in q
  {
    forall p | p in added ensures p !in done && p !in q {
      assert Init(p) == q[0];
    }
  }

  lemma AdvanceQueue(t: set<string>, q: seq<string>, added: seq<string>)
    requires Queue(t, q) && q != [] && ChildrenOf(t, q[0], added)
    requires forall p :: p in added ==> p !in q
    ensures Queue(t, q[1..] + added)
  {
    var next := q[1..] + added;
    assert forall i :: 0 <= i < |next| ==> next[i] == if i < |q| - 1 then q[i + 1] else added[i - |q| + 1];
    assert forall p :: p in next ==> |q[0]| <= |p| <= |q[0]| + 1;
  }

  /** Expanding the head and queueing its children keeps the frontier. */
  lemma Advance(t: set<string>, q: seq<string>, done: set<string>, added: seq<string>)
    requires PrefixClosed(t) && Frontier(t, q, done) && q != [] && ChildrenOf(t, q[0], added)
    ensures Frontier(t, q[1..] + added, done + {q[0]})
  {
    var next, d := q[1..] + added, done + {q[0]};
    NewOnQueue(t, q, done, added);
    AdvanceQueue(t, q, added);
    assert forall p :: p in next <==> p in q[1..] || p in added;
    assert forall p :: p in q <==> p == q[0] || p in q[1..];
    forall p | p in t && p != []
      ensures p in d || p in next <==> Init(p) in d
    {
    }
    assert |q| > 1 ==> next[0] == q[1];
    assert forall p :: p in q[1..] ==> |q[1]| <= |p|;
    forall p | next != [] && p in t && |p| < |next[0]| ensures p in d {
      assert |next[0]| <= |q[0]| + 1;
      ShallowSeen(t, q, done, p);
    }
  }

  /** When the queue is empty every path has been expanded. */
  lemma {:induction false} Exhausted(t: set<string>, done: set<string>, p: string)
    requires PrefixClosed(t) && Frontier(t, [], done) && p in t
    ensures p in done
  {
    if p != [] {
      Exhausted(t, done, Init(p));
    }
  }
}
