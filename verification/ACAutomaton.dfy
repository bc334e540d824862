/** The Aho-Corasick automaton: a heap trie whose nodes are linked in place.
    Words are sequences of code points. */
module ACAutomatonModule {
  import opened Keywords

  class Node {
    var next: map<char, Node>
    var isEnd: bool
    var length: int
    var fail: Node?
    ghost const word: Word  // the string this node spells

    constructor (ghost w: Word)
      ensures next == map[] && !isEnd && length == 0 && fail == null && word == w
    {
      next, isEnd, length, fail, word := map[], false, 0, null, w;
    }
  }

  class ACAutomaton {
    const root: Node
    ghost var paths: map<Word, Node>  // every node, by the string it spells
    ghost var keywords: set<Word>     // the non-empty words inserted so far

    /** The child of w under c is exactly the node that spells w + [c], when there is one. */
    ghost predicate ChildOk(w: Word, c: char)
      requires w in paths
      reads this`paths, paths.Values`next
    {
      if c in paths[w].next
      then w + [c] in paths && paths[w].next[c] == paths[w + [c]]
      else w + [c] !in paths
    }

    ghost predicate IsTrie()
      reads this`paths, paths.Values`next
    {
      && PrefixClosed(paths.Keys)
      && paths[""] == root
      && (forall w :: w in paths ==> paths[w].word == w)
      && (forall w, c {:trigger ChildOk(w, c)} :: w in paths ==> ChildOk(w, c))
    }

    /** Marked nodes are the keywords, and a mark records the keyword's length. */
    ghost predicate MarksKeywords()
      reads this, paths.Values`isEnd, paths.Values`length
    {
      && "" !in keywords
      && keywords <= paths.Keys
      && (forall w :: w in paths ==> (paths[w].isEnd <==> w in keywords))
      && (forall w :: w in keywords ==> paths[w].length == |w|)
    }

    ghost predicate Valid()
      reads this, paths.Values`next, paths.Values`isEnd, paths.Values`length
    {
      IsTrie() && MarksKeywords() && paths.Keys == Prefixes(keywords)
    }

    /** The node's failure link is set, and leads to the longest proper suffix in the trie. */
    ghost predicate LinkOk(w: Word)
      requires "" in paths && w in paths
      reads this`paths, paths.Values`fail
    {
      paths[w].fail == if w == "" then null else paths[FailWord(paths.Keys, w)]
    }

    /** What filter needs: a build after the last new node. */
    ghost predicate Linked()
      requires "" in paths
      reads this`paths, paths.Values`fail
    {
      forall w {:trigger LinkOk(w)} :: w in paths ==> LinkOk(w)
    }

    constructor ()
      ensures Valid() && keywords == {} && fresh(paths.Values)
    {
      root := new Node("");
      new;
      paths := map["" := root];
      keywords := {};
      assert Prefixes({}) == {""};
    }

    /** The node stands in the trie at the word it spells. */
    ghost predicate InTrie(node: Node)
      reads this`paths
    {
      node.word in paths && paths[node.word] == node
    }

    /** Old nodes keep their place and new ones are fresh and unlinked. */
    twostate predicate Grown(before: map<Word, Node>)
      reads this`paths, paths.Values`fail
    {
      && (forall w :: w in before ==> w in paths && paths[w] == before[w])
      && (forall w :: w in paths && w !in before ==> fresh(paths[w]) && paths[w].fail == null)
    }

    /** Gives a node a new child. */
    method AddChild(node: Node, ch: char)
      requires IsTrie() && MarksKeywords() && InTrie(node) && ch !in node.next
      modifies this`paths, node`next
      ensures IsTrie() && MarksKeywords()
      ensures node.word + [ch] in paths && paths == old(paths)[node.word + [ch] := paths[node.word + [ch]]]
      ensures Grown(old(paths))
    {
      ghost var v := node.word + [ch];
      assert ChildOk(node.word, ch);
      NewChild(paths.Keys, node.word, ch);
      var child := new Node(v);
      node.next := node.next[ch := child];
      paths := paths[v := child];
      assert paths.Keys == old(paths).Keys + {v};
      forall w, c | w in paths
        ensures ChildOk(w, c)
      {
        if w != v {
          assert old(ChildOk(w, c));
          if w + [c] == v {
            SnocSame(w, c, node.word, ch);
          }
        }
      }
    }

    /** One turn of insert's loop: make sure the child is there. */
    method Extend(node: Node, ch: char)
      requires IsTrie() && MarksKeywords() && InTrie(node)
      modifies this`paths, node`next
      ensures IsTrie() && MarksKeywords()
      ensures ch in node.next && node.word + [ch] in paths && paths[node.word + [ch]] == node.next[ch]
      ensures paths.Keys == old(paths.Keys) + {node.word + [ch]}
      ensures Grown(old(paths))
    {
      if ch !in node.next {
        AddChild(node, ch);
      }
      assert ChildOk(node.word, ch);
    }

    /** Make room for the word: follow its path, adding the nodes that are missing. */
    method AddPath(word: Word) returns (node: Node)
      requires IsTrie() && MarksKeywords()
      modifies this`paths, paths.Values`next
      ensures IsTrie() && MarksKeywords()
      ensures word in paths && node == paths[word]
      ensures paths.Keys == old(paths.Keys) + Path(word, |word|)
      ensures Grown(old(paths))
    {
      node := root;
      assert word[..0] == "";
      for i := 0 to |word|
        invariant IsTrie() && MarksKeywords() && InTrie(node) && node.word == word[..i]
        invariant paths.Keys == old(paths.Keys) + Path(word, i)
        invariant Grown(old(paths))
      {
        var ch := word[i];
        assert word[..i + 1] == word[..i] + [ch];
        Extend(node, ch);
        node := node.next[ch];
      }
      assert word[..|word|] == word;
    }

    method Insert(word: Word)
      requires Valid()
      modifies this, paths.Values
      ensures Valid()
      ensures keywords == old(keywords) + if word == "" then {} else {word}
      ensures Grown(old(paths))
      ensures forall w :: w in old(paths) ==> paths[w].fail == old(paths[w].fail)
    {
      if word == "" { return; }
      var node := AddPath(word);
      PrefixesOfUnion(keywords, word);
      Mark(node, word);
    }

    method Mark(node: Node, word: Word)
      requires IsTrie() && MarksKeywords()
      requires word in paths && node == paths[word] && word != ""
      modifies this`keywords, node`isEnd, node`length
      ensures IsTrie() && MarksKeywords()
      ensures keywords == old(keywords) + {word}
    {
      node.isEnd := true;
      node.length := |word|;
      keywords := keywords + {word};
    }

    /** All links of words no longer than n are in place. */
    ghost predicate LinkedUpTo(n: nat)
      requires "" in paths
      reads this`paths, paths.Values`fail
    {
      forall w {:trigger LinkOk(w)} :: w in paths && |w| <= n ==> LinkOk(w)
    }

    /** The inner walk of build: follow links from start until a node can read ch, or none is left. */
    method Walk(start: Node, ch: char) returns (p: Node?, ghost hops: nat)
      requires IsTrie() && InTrie(start) && LinkedUpTo(|start.word|)
      ensures var target := LongestSuffix(paths.Keys, start.word + [ch]);
              if p == null then target == "" && hops <= |start.word| + 1
              else ch in p.next && InTrie(p) && p.word + [ch] == target && hops + |p.word| <= |start.word|
    {
      p, hops := start, 0;
      ghost var d := paths.Keys;
      while p != null
        invariant p != null ==> InTrie(p) && hops + |p.word| <= |start.word|
        invariant p == null ==> hops <= |start.word| + 1
        invariant LongestSuffix(d, start.word + [ch]) == if p == null then "" else LongestSuffix(d, p.word + [ch])
        decreases if p == null then 0 else |p.word| + 1
      {
        assert ChildOk(p.word, ch);
        if ch in p.next {
          return;
        }
        LongestSuffixViaFail(d, p.word, ch);
        assert LinkOk(p.word);
        p := p.fail;
        hops := hops + 1;
      }
    }

    /** Where build links the child of node under ch. */
    method FailTarget(node: Node, ch: char) returns (target: Node, ghost hops: nat)
      requires IsTrie() && InTrie(node) && LinkedUpTo(|node.word|) && node.word + [ch] in paths
      ensures target == paths[FailWord(paths.Keys, node.word + [ch])]
      ensures WalkOk(paths.Keys, node.word + [ch], hops)
    {
      ghost var d, w := paths.Keys, node.word;
      assert (w + [ch])[..|w|] == w;
      if node == root {
        FailWordOfLetter(d, ch);
        return root, 0;
      }
      assert LinkOk(w);
      FailWordOfChild(d, w, ch);
      var p;
      p, hops := Walk(node.fail, ch);
      if p == null { return root, hops; }
      assert ChildOk(p.word, ch);
      return p.next[ch], hops;
    }

    // ------------------------------------------------------------------------ build

    /** The queue holds the nodes that spell these words. */
    ghost predicate Spells(q: seq<Node>, words: seq<Word>)
      reads this`paths
    {
      |q| == |words| && forall i :: 0 <= i < |q| ==> InTrie(q[i]) && q[i].word == words[i]
    }

    /** The walks made so far each linked one node, at no more than its cost. */
    ghost predicate Progress(walks: map<Word, nat>)
      requires "" in paths
      reads this`paths, paths.Values`fail
    {
      && walks.Keys <= paths.Keys
      && (forall v {:trigger LinkOk(v)} :: v in walks ==> LinkOk(v))
      && (forall v {:trigger walks[v]} :: v in walks ==> WalkOk(paths.Keys, v, walks[v]))
    }

    /** Everything build knows while it links the children of the open words. */
    ghost predicate Building(q: seq<Node>, words: seq<Word>, open: set<Word>, walks: map<Word, nat>, level: nat)
      requires "" in paths
      reads this`paths, paths.Values`fail
    {
      && Spells(q, words) && Progress(walks)
      && Leveled(words, walks.Keys, level) && Searched(paths.Keys, words, open, walks.Keys)
    }

    /** Shorter words are linked already, by the order of the search. */
    lemma ShorterAreLinked(words: seq<Word>, w: Word, walks: map<Word, nat>)
      requires PrefixClosed(paths.Keys) && Progress(walks)
      requires Leveled(words, walks.Keys, |w|) && Searched(paths.Keys, words, {w}, walks.Keys)
      ensures LinkedUpTo(|w|)
    {
      forall x | x in paths && |x| <= |w|
        ensures LinkOk(x)
      {
        FrontierBound(paths.Keys, words, {w}, walks.Keys, x);
      }
    }

    /** Sets the failure link of one child. */
    method SetLink(node: Node, ch: char, child: Node, ghost words: seq<Word>, ghost walks: map<Word, nat>)
      returns (ghost walks': map<Word, nat>)
      requires IsTrie() && InTrie(node) && ch in node.next && child == node.next[ch]
      requires Progress(walks) && node.word + [ch] !in walks
      requires Leveled(words, walks.Keys, |node.word|) && Searched(paths.Keys, words, {node.word}, walks.Keys)
      modifies child`fail
      ensures IsTrie() && InTrie(child) && child.word == node.word + [ch]
      ensures walks'.Keys == walks.Keys + {child.word} && Progress(walks')
    {
      assert ChildOk(node.word, ch);
      ShorterAreLinked(words, node.word, walks);
      ghost var hops;
      label before:
      child.fail, hops := FailTarget(node, ch);
      walks' := walks[child.word := hops];
      forall v | v in walks
        ensures LinkOk(v) && WalkOk(paths.Keys, v, walks[v])
      {
        assert old@before(LinkOk(v));
      }
    }

    /** The body of build's loop over the children of node. */
    method LinkChild(node: Node, ch: char, child: Node, q: seq<Node>, ghost words: seq<Word>, ghost walks: map<Word, nat>)
      returns (q': seq<Node>, ghost walks': map<Word, nat>)
      requires IsTrie() && InTrie(node) && ch in node.next && child == node.next[ch]
      requires Building(q, words, {node.word}, walks, |node.word|) && node.word !in words
      requires node.word + [ch] !in walks
      modifies child`fail
      ensures child.word == node.word + [ch] && node.word !in words + [child.word]
      ensures IsTrie() && Building(q', words + [child.word], {node.word}, walks', |node.word|)
      ensures walks'.Keys == walks.Keys + {child.word}
    {
      assert ChildOk(node.word, ch);
      q' := Pushed(q, words, child);
      PushChild(paths.Keys, words, node.word, ch, walks.Keys);
      walks' := SetLink(node, ch, child, words, walks);
    }

    method Pushed(q: seq<Node>, ghost words: seq<Word>, child: Node) returns (q': seq<Node>)
      requires Spells(q, words) && InTrie(child)
      ensures q' == q + [child] && Spells(q', words + [child.word])
    {
      q' := q + [child];
    }

    /** The characters still to do are exactly those whose child was not linked yet. */
    ghost predicate ChildrenLeft(node: Node, todo: set<char>, walks: map<Word, nat>)
      reads node`next
    {
      && todo <= node.next.Keys
      && forall c :: c in node.next ==> (c in todo <==> node.word + [c] !in walks)
    }

    lemma OneChildLess(node: Node, todo: set<char>, ch: char, walks: map<Word, nat>, walks': map<Word, nat>)
      requires ChildrenLeft(node, todo, walks) && ch in todo
      requires walks'.Keys == walks.Keys + {node.word + [ch]}
      ensures ChildrenLeft(node, todo - {ch}, walks')
    {
      SnocInjective(node.word, ch);
    }

    lemma AllChildrenLinked(node: Node, words: seq<Word>, walks: map<Word, nat>)
      requires IsTrie() && InTrie(node) && Searched(paths.Keys, words, {node.word}, walks.Keys)
      requires ChildrenLeft(node, {}, walks)
      ensures Searched(paths.Keys, words, {}, walks.Keys)
    {
      forall c | node.word + [c] in paths
        ensures node.word + [c] in walks
      {
        assert ChildOk(node.word, c);
      }
      CloseParent(paths.Keys, words, node.word, walks.Keys);
    }

    /** build's loop over the children of one node. */
    method LinkChildren(node: Node, q0: seq<Node>, ghost words0: seq<Word>, ghost walks0: map<Word, nat>)
      returns (q: seq<Node>, ghost words: seq<Word>, ghost walks: map<Word, nat>, ghost newest: Word)
      requires IsTrie() && InTrie(node)
      requires Building(q0, words0, {node.word}, walks0, |node.word|)
      requires node.word !in words0 && forall c :: node.word + [c] !in walks0
      modifies paths.Values`fail
      ensures IsTrie() && Building(q, words, {}, walks, |node.word|)
      ensures walks0.Keys <= walks.Keys && ((q == q0 && walks == walks0) || newest in walks.Keys - walks0.Keys)
    {
      q, words, walks, newest := q0, words0, walks0, "";
      var todo := node.next.Keys;
      while todo != {}
        invariant IsTrie() && Building(q, words, {node.word}, walks, |node.word|)
        invariant node.word !in words && ChildrenLeft(node, todo, walks)
        invariant walks0.Keys <= walks.Keys && ((q == q0 && walks == walks0) || newest in walks.Keys - walks0.Keys)
      {
        var ch :| ch in todo;
        var child := node.next[ch];
        assert ChildOk(node.word, ch);
        ghost var before := walks;
        q, walks := LinkChild(node, ch, child, q, words, walks);
        OneChildLess(node, todo, ch, before, walks);
        words, newest := words + [child.word], child.word;
        todo := todo - {ch};
      }
      AllChildrenLinked(node, words, walks);
    }

    /** One turn of build's queue loop. */
    method Turn(q0: seq<Node>, ghost words0: seq<Word>, ghost walks0: map<Word, nat>, ghost level: nat)
      returns (q: seq<Node>, ghost words: seq<Word>, ghost walks: map<Word, nat>)
      requires IsTrie() && q0 != [] && Building(q0, words0, {}, walks0, level)
      modifies paths.Values`fail
      ensures IsTrie() && Building(q, words, {}, walks, |q0[0].word|)
      ensures (walks == walks0 && |q| < |q0|) || paths.Keys - walks.Keys < paths.Keys - walks0.Keys
    {
      var node := q0[0];
      ghost var newest;
      PopFront(paths.Keys, words0, walks0.Keys, level);
      q, words, walks, newest := LinkChildren(node, q0[1..], words0[1..], walks0);
      if walks != walks0 {
        FewerUnseen(paths.Keys, walks0.Keys, walks.Keys, newest);
      }
    }

    /** Links every node; walks records, for each, how many failure links were followed to find its target. */
    method LinkAll() returns (ghost walks: map<Word, nat>)
      requires IsTrie()
      modifies paths.Values`fail
      ensures IsTrie() && Linked()
      ensures walks.Keys == paths.Keys && forall w :: w in walks ==> WalkOk(paths.Keys, w, walks[w])
    {
      root.fail := null;
      var q := [root];
      ghost var d, words := paths.Keys, [""];
      walks := map["" := 0];
      ghost var level: nat := 0;
      StartSearch(d);
      assert walks.Keys == {""};
      while q != []
        invariant IsTrie() && Building(q, words, {}, walks, level)
        decreases d - walks.Keys, |q|
      {
        ghost var front := q[0];
        q, words, walks := Turn(q, words, walks, level);
        level := |front.word|;
      }
      SearchComplete(d, walks.Keys);
    }

    method Build() returns (ghost walks: map<Word, nat>)
      requires Valid()
      modifies paths.Values`fail
      ensures Valid() && Linked()
      ensures walks.Keys == paths.Keys && Sum(walks.Keys, Hops(walks)) <= Sum(keywords, Lengths)
    {
      walks := LinkAll();
      WalksAreLinear(keywords, walks);
    }

    // ----------------------------------------------------------------------- filter

    /** Read one character: follow links until a node can read ch, or the root is reached. */
    method Step(start: Node, ch: char, ghost text: Word) returns (node: Node, ghost hops: nat)
      requires IsTrie() && Linked() && InTrie(start)
      requires start.word == LongestSuffix(paths.Keys, text)
      ensures InTrie(node) && node.word == LongestSuffix(paths.Keys, text + [ch])
      ensures hops + |node.word| <= |start.word| + 1
    {
      ghost var d := paths.Keys;
      LongestSuffixSnoc(d, text, ch);
      node, hops := start, 0;
      while ch !in node.next && node != root
        invariant InTrie(node) && hops + |node.word| <= |start.word|
        invariant LongestSuffix(d, node.word + [ch]) == LongestSuffix(d, text + [ch])
        decreases |node.word|
      {
        assert ChildOk(node.word, ch);
        assert LinkOk(node.word);
        LongestSuffixViaFail(d, node.word, ch);
        node := node.fail;
        hops := hops + 1;
      }
      assert ChildOk(node.word, ch);
      if ch in node.next {
        node := node.next[ch];
      } else {
        LongestSuffixViaFail(d, node.word, ch);
        node := root;
      }
    }

    /** Follow links from node down to the root, recording every keyword that ends here. */
    method Collect(node: Node, i: int, ghost text: Word) returns (found: seq<Match>)
      requires IsTrie() && MarksKeywords() && Linked() && InTrie(node)
      requires |text| == i + 1 && node.word == LongestSuffix(paths.Keys, text)
      ensures found == KeywordsEnding(keywords, text, 0)
    {
      SkipToLongestSuffix(keywords, paths.Keys, text, text);
      found := [];
      var temp: Node := node;
      while temp != root
        invariant InTrie(temp) && IsSuffix(temp.word, text)
        invariant found == KeywordsEnding(keywords, text, |temp.word|)
        decreases |temp.word|
      {
        assert LinkOk(temp.word);
        NextEnding(keywords, paths.Keys, text, temp.word);
        if temp.isEnd {
          found := found + [Match(i - temp.length + 1, i)];
        }
        temp := temp.fail;
      }
    }

    /** The result is the all-substrings filter of the sentence; the matches found are exactly the
        keyword occurrences, by end and then by start; and the search followed at most one failure
        link for each character. */
    method Filter(sentence: Word) returns (result: Word, matches: seq<Match>, ghost hops: nat)
      requires Valid() && Linked()
      ensures result == Masked(keywords, sentence)
      ensures matches == Occurrences(keywords, sentence, |sentence|)
      ensures hops <= |sentence|
    {
      var node := root;
      matches, hops := [], 0;
      for i := 0 to |sentence|
        invariant InTrie(node) && node.word == LongestSuffix(paths.Keys, sentence[..i])
        invariant matches == Occurrences(keywords, sentence, i)
        invariant hops + |node.word| <= i
      {
        ghost var followed;
        assert sentence[..i + 1] == sentence[..i] + [sentence[i]];
        node, followed := Step(node, sentence[i], sentence[..i]);
        hops := hops + followed;
        var found := Collect(node, i, sentence[..i + 1]);
        matches := matches + found;
      }
      result := MaskAll(keywords, sentence, matches);
    }

    // ---------------------------------------------------------------------- release

    ghost function Subtree(w: Word): set<Word>
      reads this`paths
    {
      set v | v in paths && w <= v
    }

    /** The nodes were freed each once, and none before a node below it. */
    ghost predicate FreedBottomUp(freed: seq<Node>)
      reads this`paths
    {
      && (forall i :: 0 <= i < |freed| ==> InTrie(freed[i]))
      && (forall i, j :: 0 <= i < j < |freed| ==> !(freed[i].word <= freed[j].word))
    }

    /** Frees exactly the subtree of node; a node freed is not used again. */
    method Release(node: Node) returns (freed: seq<Node>)
      requires IsTrie() && InTrie(node)
      ensures FreedBottomUp(freed)
      ensures forall n :: n in freed ==> node.word <= n.word
      ensures forall v :: v in Subtree(node.word) ==> paths[v] in freed
      decreases Subtree(node.word)
    {
      ghost var w := node.word;
      freed := [];
      var todo := node.next.Keys;
      while todo != {}
        invariant todo <= node.next.Keys && FreedBottomUp(freed)
        invariant forall n :: n in freed ==> w < n.word && n.word[|w|] in node.next.Keys - todo
        invariant forall v :: v in paths && w < v && v[|w|] in node.next.Keys - todo ==> paths[v] in freed
      {
        var ch :| ch in todo;
        ghost var done := node.next.Keys - todo;
        var child := node.next[ch];
        assert ChildOk(w, ch);
        assert w in Subtree(w) && w !in Subtree(child.word);
        var below := Release(child);
        forall n | n in below
          ensures w < n.word && n.word[|w|] == ch
        {
          assert child.word <= n.word;
        }
        forall v | v in paths && w < v && v[|w|] == ch
          ensures paths[v] in below
        {
          assert v[..|w| + 1] == w + [ch];
          assert v in Subtree(child.word);
        }
        FreedSeparately(freed, below, w, done, ch);
        freed := freed + below;
        todo := todo - {ch};
      }
      forall v | v in paths && w < v
        ensures v[|w|] in node.next
      {
        PrefixesStay(paths.Keys, v, |w| + 1);
        assert v[..|w| + 1] == w + [v[|w|]];
        assert ChildOk(w, v[|w|]);
      }
      freed := freed + [node];
      forall v | v in Subtree(w)
        ensures paths[v] in freed
      {
        assert v == w || w < v;
      }
    }

    lemma FreedSeparately(freed: seq<Node>, below: seq<Node>, w: Word, done: set<char>, ch: char)
      requires FreedBottomUp(freed) && FreedBottomUp(below) && ch !in done
      requires forall n :: n in freed ==> w < n.word && n.word[|w|] in done
      requires forall n :: n in below ==> w < n.word && n.word[|w|] == ch
      ensures FreedBottomUp(freed + below)
    {
      var both := freed + below;
      forall i, j | 0 <= i < j < |both|
        ensures !(both[i].word <= both[j].word)
      {
        if i < |freed| <= j {
          assert both[i] in freed && both[j] in below;
        }
      }
    }
  }

  ghost function KeywordsOf(words: seq<Word>): set<Word>
  {
    set w | w in words && w != ""
  }

  lemma KeywordsOfBoth(first: seq<Word>, second: seq<Word>)
    ensures {} + KeywordsOf(first) + KeywordsOf(second) == KeywordsOf(first + second)
  {
  }

  lemma KeywordsOfOneMore(words: seq<Word>, i: nat)
    requires i < |words|
    ensures KeywordsOf(words[..i + 1]) == KeywordsOf(words[..i]) + if words[i] == "" then {} else {words[i]}
  {
    assert words[..i + 1] == words[..i] + [words[i]];
  }

  method InsertAll(ac: ACAutomaton, words: seq<Word>)
    requires ac.Valid()
    modifies ac, ac.paths.Values
    ensures ac.Valid() && ac.keywords == old(ac.keywords) + KeywordsOf(words)
    ensures fresh(ac.paths.Values - old(ac.paths.Values))
  {
    ghost var before := ac.keywords;
    assert before == before + KeywordsOf(words[..0]);
    for i := 0 to |words|
      invariant ac.Valid() && ac.keywords == before + KeywordsOf(words[..i])
      invariant fresh(ac.paths.Values - old(ac.paths.Values))
    {
      KeywordsOfOneMore(words, i);
      ac.Insert(words[i]);
    }
    assert words[..|words|] == words;
  }

  /** Everything together, as the automaton is used: any inserts, a build, more inserts, a build on top of
      the links of the first one, and a filter that agrees with the search of all substrings. */
  method FilterWith(first: seq<Word>, second: seq<Word>, sentence: Word) returns (result: Word)
    ensures result == Masked(KeywordsOf(first + second), sentence)
  {
    var ac := new ACAutomaton();
    InsertAll(ac, first);
    ghost var walks := ac.Build();
    InsertAll(ac, second);
    walks := ac.Build();
    KeywordsOfBoth(first, second);
    var matches;
    ghost var hops;
    result, matches, hops := ac.Filter(sentence);
  }

  /** Masks every position of every match. */
  method MaskAll(ghost keywords: set<Word>, sentence: Word, matches: seq<Match>) returns (result: Word)
    requires "" !in keywords && matches == Occurrences(keywords, sentence, |sentence|)
    ensures result == Masked(keywords, sentence)
  {
    OccurrencesExact(keywords, sentence, |sentence|);
    var chars := new char[|sentence|](i requires 0 <= i < |sentence| => sentence[i]);
    for n := 0 to |matches|
      invariant forall k :: 0 <= k < |sentence| ==>
        chars[k] == if CoveredBy(matches[..n], k) then '*' else sentence[k]
    {
      var m := matches[n];
      assert OccursAt(keywords, sentence, m);
      for i := m.first to m.last + 1
        invariant forall k :: 0 <= k < |sentence| ==>
          chars[k] == if m.first <= k < i || CoveredBy(matches[..n], k) then '*' else sentence[k]
      {
        chars[i] := '*';
      }
      CoveredByOneMore(matches, n);
    }
    assert matches[..|matches|] == matches;
    forall k | 0 <= k < |sentence|
      ensures chars[k] == Masked(keywords, sentence)[k]
    {
      CoveredByOccurrences(keywords, sentence, k);
    }
    result := chars[..];
  }

  lemma CoveredByOneMore(matches: seq<Match>, n: nat)
    requires n < |matches|
    ensures forall k :: CoveredBy(matches[..n + 1], k) <==>
              matches[n].first <= k <= matches[n].last || CoveredBy(matches[..n], k)
  {
    var a, m := matches[..n], matches[n];
    assert matches[..n + 1] == a + [m];
    forall k
      ensures CoveredBy(a + [m], k) <==> m.first <= k <= m.last || CoveredBy(a, k)
    {
      if v :| v in a && v.first <= k <= v.last {
        assert v in a + [m];
      }
      if m.first <= k <= m.last {
        assert m in a + [m];
      }
    }
  }
}
