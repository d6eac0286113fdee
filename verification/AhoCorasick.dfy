/** The trigger matcher: a trie of mutable nodes, linked breadth first, that
    finds every trigger word of a text in one scan. */
module AhoCorasick {
  import opened TrieTheory
  import BreadthFirst

  /** Lower-casing is rune by rune, for the words and for the scanned text alike. */
  function Lowered(lower: char -> char, w: string): (v: string)
    ensures |v| == |w| && forall i :: 0 <= i < |w| ==> v[i] == lower(w[i])
  {
    seq(|w|, i requires 0 <= i < |w| => lower(w[i]))
  }

  function LowerAll(lower: char -> char, words: map<nat, string>): map<nat, string> {
    map id | id in words :: Lowered(lower, words[id])
  }

  lemma OneMoreLowered(lower: char -> char, words: map<nat, string>, rest: set<nat>, id: nat)
    requires id in words && id in rest
    ensures LowerAll(lower, words - (rest - {id})) == LowerAll(lower, words - rest)[id := Lowered(lower, words[id])]
  {
  }

  /** The word stands at i in the text, letter case aside. */
  ghost predicate FoundAt(lower: char -> char, word: string, text: string, i: nat) {
    i + |word| <= |text| && forall k :: 0 <= k < |word| ==> lower(text[i + k]) == lower(word[k])
  }

  lemma LoweredOccurs(lower: char -> char, word: string, text: string)
    ensures Occurs(Lowered(lower, word), Lowered(lower, text)) <==> exists i: nat :: FoundAt(lower, word, text, i)
  {
    var w, x := Lowered(lower, word), Lowered(lower, text);
    forall i: nat ensures OccursAt(w, x, i) <==> FoundAt(lower, word, text, i) {
      if i + |word| <= |text| {
        var part := x[i..i + |word|];
        assert forall k :: 0 <= k < |part| ==> part[k] == lower(text[i + k]);
      }
    }
  }

  ghost predicate NoDuplicates<T>(s: seq<T>) {
    forall i, j :: 0 <= i < j < |s| ==> s[i] != s[j]
  }

  /** The members of a finite set in some order. */
  method Keys(s: set<nat>) returns (ids: seq<nat>)
    ensures NoDuplicates(ids)
    ensures forall id :: id in ids <==> id in s
  {
    ids := [];
    var rest := s;
    while rest != {}
      invariant rest <= s
      invariant NoDuplicates(ids)
      invariant forall id :: id in ids <==> id in s - rest
      decreases rest
    {
      var id :| id in rest;
      assert id !in ids;
      ids, rest := ids + [id], rest - {id};
    }
  }

  class AcNode {
    var children: map<char, AcNode>
    var fail: AcNode?
    var output: seq<nat>
    ghost const path: string

    constructor (ghost path: string)
      ensures children == map[] && fail == null && output == [] && this.path == path
    {
      children, fail, output := map[], null, [];
      this.path := path;
    }

    /** Before linking: no fail link, and the output is the words spelled by the path. */
    ghost predicate Unlinked(dict: map<nat, string>)
      reads this`fail, this`output
    {
      fail == null && forall id :: id in output <==> id in dict && dict[id] == path
    }

    /** After linking to f: the output is every word that is a suffix of the path. */
    ghost predicate Linked(dict: map<nat, string>, f: AcNode)
      reads this`fail, this`output
    {
      && fail == f
      && (forall id :: id in output ==> id in dict)
      && (forall id :: id in dict && dict[id] != [] ==> (id in output <==> Suffix(dict[id], path)))
    }
  }

  ghost function Paths(q: seq<AcNode>): (ps: seq<string>)
    ensures |ps| == |q| && forall i :: 0 <= i < |q| ==> ps[i] == q[i].path
  {
    seq(|q|, i requires 0 <= i < |q| => q[i].path)
  }

  /** The part of the fail link's output that the build appends. */
  ghost function Inherited(path: string, output: seq<nat>): seq<nat> {
    if |path| == 1 then [] else output
  }

  ghost function Elements(q: seq<AcNode>): set<AcNode> {
    set n | n in q
  }

  ghost predicate IsChild(n: AcNode, parent: AcNode) {
    n.path != [] && Init(n.path) == parent.path
  }

  lemma PathsConcat(queue: seq<AcNode>, added: seq<AcNode>)
    requires queue != []
    ensures Paths(queue[1..] + added) == Paths(queue)[1..] + Paths(added)
    ensures forall p :: p in Paths(queue[1..] + added) <==> p in Paths(queue)[1..] || p in Paths(added)
  {
  }

  class AcMatcher {
    const lower: char -> char
    const root: AcNode
    ghost var nodes: map<string, AcNode>  // every node, by its path from the root
    ghost var repr: set<AcNode>
    ghost var dict: map<nat, string>      // the words inserted, lower-cased
    ghost const words: map<nat, string>   // the words as given

    ghost predicate IsTrie()
      reads this`nodes, this`repr, repr`children
    {
      && [] in nodes && nodes[[]] == root
      && (forall p :: p in nodes ==> nodes[p] in repr && nodes[p].path == p)
      && (forall n :: n in repr ==> n.path in nodes && nodes[n.path] == n)
      && (forall p {:trigger Init(p)} :: p in nodes && p != [] ==>
            Init(p) in nodes && Last(p) in nodes[Init(p)].children)
      && (forall n, r :: n in repr && r in n.children ==>
                           n.children[r] in repr && n.children[r].path == n.path + [r])
    }

    ghost predicate HoldsWords()
      reads this`nodes, this`dict
    {
      forall id :: id in dict ==> dict[id] in nodes
    }

    /** n is linked to the longest proper suffix of its path. */
    ghost predicate Good(n: AcNode)
      requires IsTrie()
      reads this, repr, n`fail, n`output
    {
      n.Linked(dict, nodes[Fail(nodes.Keys, n.path)])
    }

    lemma EdgesArePaths(n: AcNode, r: char)
      requires IsTrie() && n in repr
      ensures r in n.children <==> n.path + [r] in nodes
    {
      var q := n.path + [r];
      assert Init(q) == n.path && Last(q) == r;
    }

    /** One more leaf keeps the trie. */
    lemma GrownTrie(node: AcNode, r: char, child: AcNode, before: map<string, AcNode>, was: set<AcNode>)
      requires nodes == before[child.path := child] && repr == was + {child}
      requires node in was && child !in was && child.path == node.path + [r] && child.path !in before
      requires child.children == map[] && r in node.children && node.children[r] == child
      requires [] in before && before[[]] == root
      requires forall p :: p in before ==> before[p] in was && before[p].path == p
      requires forall n :: n in was ==> n.path in before && before[n.path] == n
      requires forall p {:trigger Init(p)} :: p in before && p != [] ==>
        Init(p) in before && Last(p) in before[Init(p)].children
      requires forall n, c :: n in was && c in n.children && (n != node || c != r) ==>
                 n.children[c] in was && n.children[c].path == n.path + [c]
      ensures IsTrie()
    {
      assert Init(child.path) == node.path && Last(child.path) == r;
    }

    method AddChild(node: AcNode, r: char) returns (child: AcNode)
      requires IsTrie() && node in repr && r !in node.children
      modifies this`nodes, this`repr, node`children
      ensures fresh(child) && child.path == node.path + [r] && child.fail == null && child.output == []
      ensures nodes == old(nodes)[child.path := child] && repr == old(repr) + {child}
      ensures child.path !in old(nodes)
      ensures IsTrie()
    {
      ghost var q := node.path + [r];
      EdgesArePaths(node, r);
      child := new AcNode(q);
      node.children := node.children[r := child];
      nodes := nodes[q := child];
      repr := repr + {child};
      GrownTrie(node, r, child, old(nodes), old(repr));
    }

    /** Walks word from the root, adding the nodes that are missing. */
    method Spell(word: string) returns (node: AcNode)
      requires IsTrie() && HoldsWords()
      requires forall n :: n in repr ==> n.Unlinked(dict)
      modifies this`nodes, this`repr, repr`children
      ensures IsTrie() && HoldsWords() && node in repr && node.path == word
      ensures repr >= old(repr) && fresh(repr - old(repr))
      ensures forall n :: n in repr ==> n.Unlinked(dict)
    {
      node := root;
      for k := 0 to |word|
        invariant IsTrie() && HoldsWords() && node in repr && node.path == word[..k]
        invariant repr >= old(repr) && fresh(repr - old(repr))
        invariant forall n :: n in repr ==> n.Unlinked(dict)
      {
        TakeOneMore(word, k);
        if word[k] in node.children {
          node := node.children[word[k]];
        } else {
          node := AddChild(node, word[k]);
        }
      }
      assert word[..|word|] == word;
    }

    method Insert(id: nat, word: string)
      requires IsTrie() && HoldsWords() && id !in dict
      requires forall n :: n in repr ==> n.Unlinked(dict)
      modifies this`nodes, this`repr, this`dict, repr
      ensures IsTrie() && dict == old(dict)[id := word] && HoldsWords()
      ensures fresh(repr - old(repr))
      ensures forall n :: n in repr ==> n.Unlinked(dict)
    {
      var node := Spell(word);
      Record(node, id);
    }

    method Record(node: AcNode, id: nat)
      requires IsTrie() && node in repr && id !in dict
      requires forall n :: n in repr ==> n.Unlinked(dict)
      modifies this`dict, node`output
      ensures IsTrie() && dict == old(dict)[id := node.path]
      ensures forall n :: n in repr ==> n.Unlinked(dict)
    {
      node.output := node.output + [id];
      dict := dict[id := node.path];
    }

    /** How far linking has come: the nodes in seen are linked, the others are as built. */
    ghost predicate Progress(seen: set<AcNode>)
      requires IsTrie()
      reads this, repr
    {
      && root !in seen && seen <= repr
      && (forall n {:trigger n in seen} :: n in seen ==> Good(n))
      && (forall n {:trigger n in seen} :: n in repr && n !in seen ==> n.Unlinked(dict))
    }

    ghost predicate SeenTo(depth: nat, seen: set<AcNode>)
      reads this
    {
      forall n :: n in repr && n != root && |n.path| <= depth ==> n in seen
    }

    /** Walks the fail links of parent to the first node that continues with r, and goes
        where it leads; the root when even the root does not. */
    method FindFail(parent: AcNode, r: char, ghost seen: set<AcNode>) returns (next: AcNode)
      requires IsTrie() && Progress(seen)
      requires parent in repr && parent != root && SeenTo(|parent.path|, seen)
      ensures next == nodes[Fail(nodes.Keys, parent.path + [r])] && (next == root || next in seen)
    {
      ghost var t := nodes.Keys;
      ghost var f := Fail(t, parent.path + [r]);
      FailOfChild(t, parent.path, r);
      assert parent in seen && root !in seen;
      var fail := parent.fail;
      while fail != null
        invariant fail != null ==>
                    fail in repr && |fail.path| < |parent.path| && LongestSuffix(t, fail.path + [r]) == f
        invariant fail == null ==> f == []
        decreases if fail == null then 0 else |fail.path| + 1
      {
        if r in fail.children {
          return fail.children[r];
        }
        EdgesArePaths(fail, r);
        assert fail != root ==> fail in seen;
        FollowFail(t, fail.path, r);
        fail := fail.fail;
      }
      return root;
    }

    /** The words ending at p are those spelled by p and those ending at its fail link. */
    lemma WordsEndingAt(p: string)
      requires [] in nodes && HoldsWords()
      ensures forall id :: id in dict ==>
                (Suffix(dict[id], p) <==> dict[id] == p || (p != [] && Suffix(dict[id], Fail(nodes.Keys, p))))
    {
      forall id | id in dict && p != []
        ensures Suffix(dict[id], p) <==> dict[id] == p || Suffix(dict[id], Fail(nodes.Keys, p))
      {
        SuffixThroughFail(nodes.Keys, dict[id], p);
      }
    }

    /** A node that takes over the output of its fail link is linked; a child of the root
        has nothing to take over but empty words, and the build skips it. */
    lemma MergedOutput(n: AcNode, own: seq<nat>)
      requires IsTrie() && HoldsWords() && n in repr && n != root
      requires forall id :: id in own <==> id in dict && dict[id] == n.path
      requires n.fail == nodes[Fail(nodes.Keys, n.path)] && n.output == own + Inherited(n.path, n.fail.output)
      requires if n.fail == root then root.Unlinked(dict) else Good(n.fail)
      ensures Good(n)
    {
      WordsEndingAt(n.path);
    }

    /** Linking one more node is progress. */
    lemma MoreProgress(seen: set<AcNode>, n: AcNode, own: seq<nat>)
      requires IsTrie() && HoldsWords() && n in repr && n != root && n !in seen
      requires root !in seen && seen <= repr
      requires forall m {:trigger m in seen} :: m in seen ==> Good(m)
      requires forall m {:trigger m in seen} :: m in repr && m !in seen && m != n ==> m.Unlinked(dict)
      requires forall id :: id in own <==> id in dict && dict[id] == n.path
      requires n.fail == nodes[Fail(nodes.Keys, n.path)] && (n.fail == root || n.fail in seen)
      requires n.output == own + Inherited(n.path, n.fail.output)
      ensures Progress(seen + {n})
    {
      MergedOutput(n, own);
    }

    method LinkChild(parent: AcNode, r: char, child: AcNode, ghost seen: set<AcNode>)
      requires IsTrie() && HoldsWords() && Progress(seen)
      requires parent in repr && parent != root && SeenTo(|parent.path|, seen)
      requires child in repr && child.path == parent.path + [r] && child !in seen
      modifies child`fail, child`output
      ensures IsTrie() && Progress(seen + {child})
    {
      assert child != root && |child.path| > 1;
      var f := FindFail(parent, r, seen);
      ghost var own := child.output;
      assert child.Unlinked(dict) && child != f;
      child.fail := f;
      child.output := child.output + f.output;
      forall m | m in seen ensures Good(m) {
        assert old(Good(m));
      }
      MoreProgress(seen, child, own);
    }

    /** added holds, once each, the children of parent whose rune is no longer in rest. */
    ghost predicate Collected(parent: AcNode, added: seq<AcNode>, rest: set<char>)
      reads this`repr
    {
      && NoDuplicates(added)
      && (forall n :: n in added ==> n in repr && IsChild(n, parent) && Last(n.path) !in rest)
      && (forall n {:trigger IsChild(n, parent)} ::
            n in repr && IsChild(n, parent) && Last(n.path) !in rest ==> n in added)
    }

    lemma EdgeLeadsToChild(parent: AcNode, r: char)
      requires IsTrie() && parent in repr && r in parent.children
      ensures var child := parent.children[r];
        child in repr && child.path == parent.path + [r] && IsChild(child, parent) && Last(child.path) == r
    {
      assert parent.children[r].path == parent.path + [r];
    }

    lemma EveryChildHasAnEdge(parent: AcNode)
      requires IsTrie() && parent in repr
      ensures Collected(parent, [], parent.children.Keys)
    {
    }

    lemma CollectOne(parent: AcNode, child: AcNode, added: seq<AcNode>, rest: set<char>)
      requires IsTrie() && Collected(parent, added, rest)
      requires child in repr && IsChild(child, parent) && Last(child.path) in rest
      ensures child !in added && Collected(parent, added + [child], rest - {Last(child.path)})
      ensures Elements(added + [child]) == Elements(added) + {child}
    {
      var r := Last(child.path);
      forall n | n in repr && IsChild(n, parent) && Last(n.path) !in rest - {r} ensures n in added + [child] {
        if Last(n.path) == r {
          assert n.path == Init(n.path) + [Last(n.path)] && child.path == Init(child.path) + [Last(child.path)];
          assert n == nodes[n.path] == nodes[child.path] == child;
        }
      }
    }

    lemma AddedAreChildren(parent: AcNode, added: seq<AcNode>)
      requires IsTrie() && Collected(parent, added, {})
      ensures BreadthFirst.ChildrenOf(nodes.Keys, parent.path, Paths(added))
    {
      forall p | p in nodes && p != [] && Init(p) == parent.path ensures p in Paths(added) {
        assert IsChild(nodes[p], parent);
        var i :| 0 <= i < |added| && added[i] == nodes[p];
        assert Paths(added)[i] == p;
      }
      assert forall i, j :: 0 <= i < j < |added| ==> nodes[added[i].path] != nodes[added[j].path];
    }

    /** Links the child of parent along r, behind those in added. */
    method LinkAlong(parent: AcNode, r: char, ghost added: seq<AcNode>, ghost rest: set<char>, ghost seen: set<AcNode>)
      returns (child: AcNode)
      requires IsTrie() && HoldsWords() && Progress(seen + Elements(added)) && Collected(parent, added, rest)
      requires parent in repr && parent != root && SeenTo(|parent.path|, seen)
      requires r in rest && r in parent.children
      requires forall n :: n in seen ==> !IsChild(n, parent)
      modifies repr`fail, repr`output
      ensures child in repr && IsTrie() && Progress(seen + Elements(added + [child]))
      ensures Collected(parent, added + [child], rest - {r})
    {
      ghost var now := seen + Elements(added);
      child := parent.children[r];
      EdgeLeadsToChild(parent, r);
      CollectOne(parent, child, added, rest);
      LinkChild(parent, r, child, now);
      assert seen + Elements(added + [child]) == now + {child};
    }

    /** Links every child of parent and returns them in some order. */
    method LinkChildren(parent: AcNode, ghost seen: set<AcNode>) returns (added: seq<AcNode>)
      requires IsTrie() && HoldsWords() && Progress(seen)
      requires parent in repr && parent != root && SeenTo(|parent.path|, seen)
      requires forall n :: n in seen ==> !IsChild(n, parent)
      modifies repr`fail, repr`output
      ensures forall n :: n in added ==> n in repr
      ensures BreadthFirst.ChildrenOf(nodes.Keys, parent.path, Paths(added))
      ensures IsTrie() && Progress(seen + Elements(added))
    {
      added := [];
      assert seen + Elements(added) == seen;
      EveryChildHasAnEdge(parent);
      var rest := parent.children.Keys;
      while rest != {}
        invariant IsTrie() && Progress(seen + Elements(added))
        invariant rest <= parent.children.Keys && Collected(parent, added, rest)
        decreases rest
      {
        var r :| r in rest;
        var child := LinkAlong(parent, r, added, rest, seen);
        added, rest := added + [child], rest - {r};
      }
      AddedAreChildren(parent, added);
    }

    /** Links the child of the root along r to the root. */
    method LinkToRoot(r: char, ghost added: seq<AcNode>, ghost rest: set<char>) returns (child: AcNode)
      requires IsTrie() && HoldsWords() && Progress(Elements(added)) && Collected(root, added, rest)
      requires r in rest && r in root.children
      modifies repr`fail
      ensures child in repr && IsTrie() && Progress(Elements(added + [child]))
      ensures Collected(root, added + [child], rest - {r})
    {
      child := root.children[r];
      EdgeLeadsToChild(root, r);
      CollectOne(root, child, added, rest);
      child.fail := root;
      forall m | m in Elements(added) ensures Good(m) {
        assert old(Good(m));
      }
      MoreProgress(Elements(added), child, child.output);
    }

    /** Links the children of the root to the root and returns them in some order. */
    method LinkRootChildren() returns (added: seq<AcNode>)
      requires IsTrie() && HoldsWords() && Progress({})
      modifies repr`fail
      ensures forall n :: n in added ==> n in repr
      ensures BreadthFirst.ChildrenOf(nodes.Keys, [], Paths(added))
      ensures IsTrie() && Progress(Elements(added))
    {
      added := [];
      assert Elements(added) == {};
      EveryChildHasAnEdge(root);
      var rest := root.children.Keys;
      while rest != {}
        invariant IsTrie() && Progress(Elements(added))
        invariant rest <= root.children.Keys && Collected(root, added, rest)
        decreases rest
      {
        var r :| r in rest;
        var child := LinkToRoot(r, added, rest);
        added, rest := added + [child], rest - {r};
      }
      AddedAreChildren(root, added);
    }

    /** The bookkeeping between two steps of the breadth-first build. */
    ghost predicate Order(queue: seq<AcNode>, done: set<string>, seen: set<AcNode>)
      reads this`nodes, this`repr
    {
      && (forall n :: n in queue ==> n in repr)
      && BreadthFirst.Frontier(nodes.Keys, Paths(queue), done)
      && (forall n {:trigger n in seen} :: n in repr && n != root ==>
            (n in seen <==> n.path in done || n.path in Paths(queue)))
    }

    lemma ReadyToExpand(queue: seq<AcNode>, done: set<string>, seen: set<AcNode>)
      requires IsTrie() && Progress(seen) && Order(queue, done, seen) && queue != []
      ensures queue[0] in repr && queue[0] != root && SeenTo(|queue[0].path|, seen)
      ensures forall n :: n in seen ==> !IsChild(n, queue[0])
    {
      var q := Paths(queue);
      assert queue[0] in queue && q[0] in q && q[0] !in done;
      forall n | n in repr && n != root && |n.path| <= |queue[0].path| ensures n in seen {
        BreadthFirst.ShallowSeen(nodes.Keys, q, done, n.path);
      }
      forall n | n in seen ensures !IsChild(n, queue[0]) {
        assert n.path in done || n.path in q;
      }
    }

    lemma Expanded(queue: seq<AcNode>, done: set<string>, seen: set<AcNode>, added: seq<AcNode>)
      requires IsTrie() && Order(queue, done, seen) && queue != []
      requires forall n :: n in added ==> n in repr
      requires BreadthFirst.ChildrenOf(nodes.Keys, queue[0].path, Paths(added))
      ensures Order(queue[1..] + added, done + {queue[0].path}, seen + Elements(added))
    {
      var q := Paths(queue);
      BreadthFirst.Advance(nodes.Keys, q, done, Paths(added));
      PathsConcat(queue, added);
      assert forall p :: p in q <==> p == q[0] || p in q[1..];
      forall n | n in repr && n != root
        ensures n in seen + Elements(added) <==>
                n.path in done + {queue[0].path} || n.path in Paths(queue[1..] + added)
      {
        PathOfElement(added, n);
      }
    }

    lemma PathOfElement(added: seq<AcNode>, n: AcNode)
      requires IsTrie() && n in repr && forall m :: m in added ==> m in repr
      ensures n.path in Paths(added) <==> n in added
    {
      if n.path in Paths(added) {
        var i :| 0 <= i < |added| && Paths(added)[i] == n.path;
        assert added[i] == nodes[n.path];
      }
      if n in added {
        var i :| 0 <= i < |added| && added[i] == n;
        assert Paths(added)[i] == n.path;
      }
    }

    lemma Finished(done: set<string>, seen: set<AcNode>)
      requires IsTrie() && HoldsWords() && Progress(seen) && Order([], done, seen) && dict == LowerAll(lower, words)
      ensures Valid()
    {
      forall n | n in repr && n != root ensures n in seen {
        BreadthFirst.Exhausted(nodes.Keys, done, n.path);
      }
      assert seen == repr - {root};
    }

    /** The trie of the words given, with every node but the root linked. */
    ghost predicate Valid()
      reads this, repr
    {
      IsTrie() && HoldsWords() && Progress(repr - {root}) && dict == LowerAll(lower, words)
    }

    /** Sets the fail links and merges the outputs, breadth first. */
    method Link()
      requires IsTrie() && HoldsWords() && Progress({}) && dict == LowerAll(lower, words)
      modifies repr`fail, repr`output
      ensures Valid()
    {
      var queue := LinkRootChildren();
      ghost var done, seen := {[]}, Elements(queue);
      BreadthFirst.Start(nodes.Keys, Paths(queue));
      forall n | n in repr && n != root ensures n in seen <==> n.path in done || n.path in Paths(queue) {
        PathOfElement(queue, n);
      }
      while queue != []
        invariant IsTrie() && Progress(seen) && Order(queue, done, seen)
        decreases nodes.Keys - done
      {
        var parent := queue[0];
        ReadyToExpand(queue, done, seen);
        var added := LinkChildren(parent, seen);
        Expanded(queue, done, seen, added);
        queue := queue[1..] + added;
        done, seen := done + {parent.path}, seen + Elements(added);
      }
      Finished(done, seen);
    }

    /** Builds the matcher of the given words. */
    constructor (words: map<nat, string>, lower: char -> char)
      ensures Valid() && fresh(repr)
      ensures this.lower == lower && this.words == words
    {
      this.lower, this.words := lower, words;
      var r := new AcNode([]);
      root := r;
      nodes := map[[] := r];
      repr := {r};
      dict := map[];
      new;
      InsertAll(words);
      Link();
    }

    method InsertAll(words: map<nat, string>)
      requires IsTrie() && HoldsWords() && dict == map[]
      requires forall n :: n in repr ==> n.Unlinked(dict)
      modifies this`nodes, this`repr, this`dict, repr
      ensures IsTrie() && HoldsWords() && Progress({}) && fresh(repr - old(repr))
      ensures dict == LowerAll(lower, words)
    {
      var rest := words.Keys;
      while rest != {}
        invariant IsTrie() && HoldsWords() && fresh(repr - old(repr)) && rest <= words.Keys
        invariant forall n :: n in repr ==> n.Unlinked(dict)
        invariant dict == LowerAll(lower, words - rest)
        decreases rest
      {
        var id :| id in rest;
        Insert(id, Lowered(lower, words[id]));
        OneMoreLowered(lower, words, rest, id);
        rest := rest - {id};
      }
      assert words - rest == words;
    }

    /** What construction leaves at every node but the root: a fail link to the node of the
        longest proper suffix, and the ids of exactly the words ending here. */
    lemma LinksAndOutputs(n: AcNode)
      requires Valid() && n in repr && n != root
      ensures n.fail != null && n.fail in repr && Suffix(n.fail.path, n.path) && |n.fail.path| < |n.path|
      ensures forall m :: m in repr && m != n && Suffix(m.path, n.path) ==> |m.path| <= |n.fail.path|
      ensures forall id :: id in dict && dict[id] != [] ==> (id in n.output <==> Suffix(dict[id], n.path))
    {
      assert n in repr - {root} && Good(n);
      FailIsLongestProperSuffix(nodes.Keys, n.path);
    }

    /** Reads one rune: follows fail links until an edge fits, then takes it. */
    method Step(node: AcNode, r: char, ghost x: string) returns (next: AcNode, ghost failSteps: nat)
      requires Valid() && node in repr && node.path == LongestSuffix(nodes.Keys, x)
      ensures next in repr && next.path == LongestSuffix(nodes.Keys, x + [r])
      ensures failSteps + |next.path| <= |node.path| + 1
    {
      ghost var t := nodes.Keys;
      LongestSuffixStep(t, x, r);
      next, failSteps := node, 0;
      while next != root && r !in next.children
        invariant next in repr && LongestSuffix(t, next.path + [r]) == LongestSuffix(t, x + [r])
        invariant failSteps + |next.path| <= |node.path|
        decreases |next.path|
      {
        EdgesArePaths(next, r);
        FollowFail(t, next.path, r);
        assert next in repr - {root} && Good(next);
        next, failSteps := next.fail, failSteps + 1;
      }
      EdgesArePaths(next, r);
      if r in next.children {
        next := next.children[r];
      } else {
        FollowFail(t, next.path, r);
      }
    }

    /** The ids of the words given that stand in text, letter case aside, each once. Over the whole
        scan no more fail links are followed than text has runes. */
    method Match(text: string) returns (ids: seq<nat>, ghost failSteps: nat)
      requires Valid()
      ensures NoDuplicates(ids)
      ensures forall id :: id in ids ==> id in words
      ensures forall id :: id in words && words[id] != [] ==>
                (id in ids <==> exists i: nat :: FoundAt(lower, words[id], text, i))
      ensures failSteps <= |text|
    {
      var matched: set<nat> := {};
      var node := root;
      ghost var x := Lowered(lower, text);
      failSteps := 0;
      for k := 0 to |text|
        invariant node in repr && node.path == LongestSuffix(nodes.Keys, x[..k])
        invariant failSteps + |node.path| <= k
        invariant forall id :: id in matched ==> id in dict
        invariant forall id :: id in dict && dict[id] != [] ==> (id in matched <==> Occurs(dict[id], x[..k]))
      {
        TakeOneMore(x, k);
        ghost var steps: nat;
        node, steps := Step(node, lower(text[k]), x[..k]);
        failSteps := failSteps + steps;
        OutputIsWhatEndsHere(node, x[..k], x[k]);
        matched := matched + set id | id in node.output;
      }
      assert x[..|text|] == x;
      ids := Keys(matched);
      forall id | id in words && words[id] != []
        ensures id in ids <==> exists i: nat :: FoundAt(lower, words[id], text, i)
      {
        LoweredOccurs(lower, words[id], text);
      }
    }

    lemma OutputIsWhatEndsHere(n: AcNode, x: string, r: char)
      requires Valid() && n in repr && n.path == LongestSuffix(nodes.Keys, x + [r])
      ensures forall id :: id in n.output ==> id in dict
      ensures forall id :: id in dict && dict[id] != [] ==>
                (Occurs(dict[id], x + [r]) <==> Occurs(dict[id], x) || id in n.output)
    {
      assert n != root ==> n in repr - {root} && Good(n);
      assert root !in repr - {root};
      forall id | id in dict && dict[id] != []
        ensures Occurs(dict[id], x + [r]) <==> Occurs(dict[id], x) || id in n.output
      {
        OccursStep(dict[id], x, r);
        SuffixThroughLongest(nodes.Keys, dict[id], x + [r]);
      }
    }
  }
}
