/**
  HITS keyword ranking over a directed word co-occurrence graph: an edge runs
  from a word to the word that directly follows it in some sentence. Hub and
  authority scores start at 1, are recomputed from each other for a fixed
  number of rounds, and the words are ranked by the mean of the two.

  Math.sqrt and floating-point division, which the normalisation after each
  step uses, are parameters of the model (`sqrt`, `div`).
 */
module HITS {
  import opened Collections
  import opened Documents
  import opened IndexValuePairs
  import opened HITSNodes

  /** The graph: node index to node. */
  type Graph = map<int, HITSNode>

  // ---------------------------------------------------------------------
  // The word list
  // ---------------------------------------------------------------------

  /** Every distinct word of the sentences, once each, in alphabetical order. */
  method MakeWordList(sentences: Document) returns (words: seq<string>)
    ensures StrictlySorted(words)
    ensures Elems(words) == Words(sentences)
  {
    words := [];
    for i := 0 to |sentences|
      invariant NoDup(words)
      invariant Elems(words) == Words(sentences[..i])
    {
      var sentence := sentences[i];
      for k := 0 to |sentence|
        invariant NoDup(words)
        invariant Elems(words) == Words(sentences[..i]) + Elems(sentence[..k])
      {
        assert Elems(sentence[..k + 1]) == Elems(sentence[..k]) + {sentence[k]} by {
          assert sentence[..k + 1] == sentence[..k] + [sentence[k]];
        }
        if sentence[k] !in words {
          NoDupAppend(words, sentence[k]);
          words := words + [sentence[k]];
        }
        assert sentence[k] in words;
      }
      assert sentence[..|sentence|] == sentence;
      WordsExtend(sentences, i);
    }
    assert sentences[..|sentences|] == sentences;
    var sorted := SortStrings(words);
    SortedPermutationStrict(words, sorted);
    words := sorted;
  }

  lemma NoDupAppend<T>(s: seq<T>, x: T)
    requires NoDup(s) && x !in s
    ensures NoDup(s + [x])
    ensures Elems(s + [x]) == Elems(s) + {x}
  {
    var r := s + [x];
    forall i, j | 0 <= i < j < |r| ensures r[i] != r[j] {
      assert r[i] == s[i];
    }
  }

  // ---------------------------------------------------------------------
  // The co-occurrence graph
  // ---------------------------------------------------------------------

  /** The edge the adjacent tokens `s[k]`, `s[k + 1]` contribute: word-list index to word-list index. */
  function EdgeAt(s: Sentence, words: seq<string>, k: int): (int, int)
    requires 0 <= k < |s| - 1
  {
    (IndexOf(words, s[k]), IndexOf(words, s[k + 1]))
  }

  /** The edges of the first `k` adjacent pairs of sentence `s`. */
  ghost function SentenceEdges(s: Sentence, words: seq<string>, k: int): set<(int, int)>
    requires k <= PairCount(s)
  {
    if k <= 0 then {} else SentenceEdges(s, words, k - 1) + {EdgeAt(s, words, k - 1)}
  }

  /** The number of adjacent pairs in `s`: none for an empty or one-token sentence. */
  function PairCount(s: Sentence): nat
  {
    if |s| <= 1 then 0 else |s| - 1
  }

  /** The edges of the first `i` sentences. */
  ghost function DocEdges(d: Document, words: seq<string>, i: int): set<(int, int)>
    requires i <= |d|
  {
    if i <= 0 then {} else DocEdges(d, words, i - 1) + SentenceEdges(d[i - 1], words, PairCount(d[i - 1]))
  }

  /** All edges of the document. */
  ghost function Edges(d: Document, words: seq<string>): set<(int, int)>
  {
    DocEdges(d, words, |d|)
  }

  /** The edges are exactly those of adjacent token pairs. */
  lemma {:induction false} SentenceEdgesSpec(s: Sentence, words: seq<string>, k: int, p: (int, int))
    requires 0 <= k <= PairCount(s)
    ensures p in SentenceEdges(s, words, k) <==> exists b :: 0 <= b < k && p == EdgeAt(s, words, b)
  {
    if k > 0 {
      SentenceEdgesSpec(s, words, k - 1, p);
    }
  }

  /** A sentence of zero or one tokens contributes no edge. */
  lemma ShortSentenceNoEdges(s: Sentence, words: seq<string>)
    requires |s| <= 1
    ensures SentenceEdges(s, words, PairCount(s)) == {}
  {
  }

  /** `p` is the edge of some pair of adjacent tokens of sentence `k`. */
  ghost predicate PairEdge(d: Document, words: seq<string>, k: int, p: (int, int))
  {
    0 <= k < |d| && exists b :: 0 <= b < PairCount(d[k]) && p == EdgeAt(d[k], words, b)
  }

  /** The edges of the first `i` sentences are exactly those of their adjacent token pairs. */
  lemma {:induction false} DocEdgesSpec(d: Document, words: seq<string>, i: int, p: (int, int))
    requires 0 <= i <= |d|
    ensures p in DocEdges(d, words, i) <==> exists k :: 0 <= k < i && PairEdge(d, words, k, p)
  {
    if i > 0 {
      DocEdgesSpec(d, words, i - 1, p);
      SentenceEdgesSpec(d[i - 1], words, PairCount(d[i - 1]), p);
      assert p in SentenceEdges(d[i - 1], words, PairCount(d[i - 1])) <==> PairEdge(d, words, i - 1, p);
    }
  }

  /** When every token is in the word list, every edge joins two word-list indices. */
  lemma {:induction false} EdgesInRange(d: Document, words: seq<string>, i: int)
    requires 0 <= i <= |d|
    requires Words(d) <= Elems(words)
    ensures forall p :: p in DocEdges(d, words, i) ==> 0 <= p.0 < |words| && 0 <= p.1 < |words|
  {
    if i > 0 {
      EdgesInRange(d, words, i - 1);
      var s := d[i - 1];
      forall p | p in SentenceEdges(s, words, PairCount(s)) ensures 0 <= p.0 < |words| && 0 <= p.1 < |words| {
        SentenceEdgesSpec(s, words, PairCount(s), p);
        var b :| 0 <= b < PairCount(s) && p == EdgeAt(s, words, b);
        assert s[b] in d[i - 1] && s[b + 1] in d[i - 1];
        assert s[b] in Words(d) && s[b + 1] in Words(d);
        assert s[b] in Elems(words) && s[b + 1] in Elems(words);
      }
    }
  }

  /** The targets of the edges leaving `j`. */
  ghost function Succ(E: set<(int, int)>, j: int): set<int>
  {
    set p | p in E && p.0 == j :: p.1
  }

  /** The sources of the edges entering `j`. */
  ghost function Pred(E: set<(int, int)>, j: int): set<int>
  {
    set p | p in E && p.1 == j :: p.0
  }

  /** One node per index 0..n-1, no node shared by two indices. */
  ghost predicate Nodes(graph: Graph, n: int)
  {
    && graph.Keys == Range(n)
    && (forall j, j' {:trigger graph[j], graph[j']} :: j in graph && j' in graph && j != j' ==> graph[j] != graph[j'])
  }

  /** The lists of node `j` hold, without duplicates, exactly its targets and sources in `E`. */
  ghost predicate NodeMatches(node: HITSNode, E: set<(int, int)>, j: int)
    reads node
  {
    && node.Valid()
    && Elems(node.outgoing) == Succ(E, j)
    && Elems(node.incoming) == Pred(E, j)
  }

  /** Every node's lists match `E`. */
  ghost predicate ListsMatch(graph: Graph, E: set<(int, int)>)
    reads graph.Values
  {
    forall j :: j in graph ==> NodeMatches(graph[j], E, j)
  }

  /** A node without edges matches the empty edge set. */
  lemma EmptyMatches(node: HITSNode, j: int)
    requires node.incoming == [] && node.outgoing == []
    ensures NodeMatches(node, {}, j)
  {
    assert Elems(node.incoming) == {};
  }

  /** `graph` is the co-occurrence graph of the edge set `E` over `n` words. */
  ghost predicate EdgeLists(graph: Graph, n: int, E: set<(int, int)>)
    reads graph.Values
  {
    Nodes(graph, n) && ListsMatch(graph, E)
  }

  /**
    The edge lists are mutually consistent: `j` is among the outgoing edges
    of `i` exactly when `i` is among the incoming edges of `j`, exactly when
    `(i, j)` is an edge.
   */
  lemma EdgeListsConsistent(graph: Graph, n: int, E: set<(int, int)>, i: int, j: int)
    requires EdgeLists(graph, n, E) && 0 <= i < n && 0 <= j < n
    ensures i in graph && j in graph
    ensures j in graph[i].outgoing <==> (i, j) in E
    ensures i in graph[j].incoming <==> (i, j) in E
  {
    assert NodeMatches(graph[i], E, i) && NodeMatches(graph[j], E, j);
    assert j in Elems(graph[i].outgoing) <==> j in Succ(E, i);
    assert i in Elems(graph[j].incoming) <==> i in Pred(E, j);
    if (i, j) in E {
      assert j in Succ(E, i) && i in Pred(E, j);
    }
  }

  /** Every index stored in an edge list names a node. */
  ghost predicate IndicesInRange(graph: Graph, n: int)
    reads graph.Values
  {
    forall j :: 0 <= j < n ==> j in graph && ListInRange(graph[j].incoming, n) && ListInRange(graph[j].outgoing, n)
  }

  lemma EdgeListsInRange(graph: Graph, d: Document, words: seq<string>)
    requires Words(d) <= Elems(words)
    requires EdgeLists(graph, |words|, Edges(d, words))
    ensures IndicesInRange(graph, |words|)
  {
    var E := Edges(d, words);
    EdgesInRange(d, words, |d|);
    forall j | 0 <= j < |words| ensures j in graph && ListInRange(graph[j].incoming, |words|) && ListInRange(graph[j].outgoing, |words|) {
      forall t | 0 <= t < |graph[j].incoming| ensures 0 <= graph[j].incoming[t] < |words| {
        assert graph[j].incoming[t] in Elems(graph[j].incoming);
        assert graph[j].incoming[t] in Pred(E, j);
      }
      forall t | 0 <= t < |graph[j].outgoing| ensures 0 <= graph[j].outgoing[t] < |words| {
        assert graph[j].outgoing[t] in Elems(graph[j].outgoing);
        assert graph[j].outgoing[t] in Succ(E, j);
      }
    }
  }

  /**
    Builds the graph: a fresh node for every word, so isolated words have a
    node too, then an edge for every pair of adjacent tokens.
   */
  method MakeGraph(sentences: Document, wordList: seq<string>) returns (graph: Graph)
    requires Words(sentences) <= Elems(wordList)
    ensures EdgeLists(graph, |wordList|, Edges(sentences, wordList))
    ensures forall node :: node in graph.Values ==> fresh(node)
  {
    graph := MakeNodes(|wordList|);
    assert forall node :: node in graph.Values ==> fresh(node);
    for s := 0 to |sentences|
      invariant EdgeLists(graph, |wordList|, DocEdges(sentences, wordList, s))
      invariant forall node :: node in graph.Values ==> fresh(node)
    {
      EdgesInRange(sentences, wordList, s + 1);
      AddSentenceEdges(graph, |wordList|, DocEdges(sentences, wordList, s), sentences[s], wordList);
    }
  }

  /** One fresh node, without edges, for each index 0..n-1. */
  method MakeNodes(n: nat) returns (graph: Graph)
    ensures EdgeLists(graph, n, {})
    ensures forall j :: j in graph ==> fresh(graph[j])
  {
    graph := map[];
    for i := 0 to n
      invariant forall j :: j in graph ==> fresh(graph[j]) && graph[j].incoming == [] && graph[j].outgoing == []
      invariant forall j :: j in graph <==> 0 <= j < i
      invariant forall j, j' {:trigger graph[j], graph[j']} :: j in graph && j' in graph && j != j' ==> graph[j] != graph[j']
    {
      var node := new HITSNode();
      graph := graph[i := node];
    }
    KeysRange(graph, n);
    EmptyNodesMatch(graph);
  }

  /** A map whose keys are exactly 0..n-1 has the key set `Range(n)`. */
  lemma KeysRange(graph: Graph, n: int)
    requires forall j :: j in graph <==> 0 <= j < n
    ensures graph.Keys == Range(n)
  {
  }

  /** Nodes without edges match the empty edge set. */
  lemma EmptyNodesMatch(graph: Graph)
    requires forall j :: j in graph ==> graph[j].incoming == [] && graph[j].outgoing == []
    ensures ListsMatch(graph, {})
  {
    forall j | j in graph ensures NodeMatches(graph[j], {}, j) {
      EmptyMatches(graph[j], j);
    }
  }

  /** The inner loop of `makeGraph`: an edge for each adjacent pair of one sentence. */
  method AddSentenceEdges(graph: Graph, n: int, ghost E: set<(int, int)>, sentence: Sentence, wordList: seq<string>)
    requires EdgeLists(graph, n, E)
    requires forall p :: p in SentenceEdges(sentence, wordList, PairCount(sentence)) ==> 0 <= p.0 < n && 0 <= p.1 < n
    modifies graph.Values
    ensures EdgeLists(graph, n, E + SentenceEdges(sentence, wordList, PairCount(sentence)))
  {
    var i := 0;
    while i < |sentence| - 1
      invariant 0 <= i <= PairCount(sentence)
      invariant EdgeLists(graph, n, E + SentenceEdges(sentence, wordList, i))
    {
      AddPairEdge(graph, n, E, sentence, wordList, i);
      i := i + 1;
    }
  }

  /**
    One step of the inner loop: the edge from token `i` to token `i + 1`.
    The ghost maps `outs` and `ins` take every node's lists out of the heap.
   */
  method AddPairEdge(graph: Graph, n: int, ghost E: set<(int, int)>, sentence: Sentence, wordList: seq<string>, i: int)
    requires 0 <= i < PairCount(sentence)
    requires EdgeLists(graph, n, E + SentenceEdges(sentence, wordList, i))
    requires forall p :: p in SentenceEdges(sentence, wordList, PairCount(sentence)) ==> 0 <= p.0 < n && 0 <= p.1 < n
    modifies graph.Values
    ensures EdgeLists(graph, n, E + SentenceEdges(sentence, wordList, i + 1))
  {
    var current := sentence[i];
    var next := sentence[i + 1];
    var cIndex := IndexOf(wordList, current);
    var nIndex := IndexOf(wordList, next);
    assert (cIndex, nIndex) == EdgeAt(sentence, wordList, i);
    SentenceEdgesSpec(sentence, wordList, PairCount(sentence), (cIndex, nIndex));
    ghost var before := E + SentenceEdges(sentence, wordList, i);
    ghost var outs := map j | j in graph :: graph[j].outgoing;
    ghost var ins := map j | j in graph :: graph[j].incoming;
    MapsFromGraph(graph, outs, ins, before);
    assert cIndex in outs && nIndex in outs;
    AddEdgeToGraph(graph, cIndex, nIndex, outs, ins);
    MapsAdd(outs, ins, before, cIndex, nIndex);
    GraphFromMaps(graph, outs[cIndex := AddEdge(outs[cIndex], nIndex)], ins[nIndex := AddEdge(ins[nIndex], cIndex)], before + {(cIndex, nIndex)});
    UnionStep(E, SentenceEdges(sentence, wordList, i), (cIndex, nIndex));
  }

  /**
    `graph.get(c).addOutgoing(n); graph.get(n).addIncoming(c);`: node `c`
    gains the outgoing edge to `n`, node `n` the incoming edge from `c`, and
    no other list changes. `outs` and `ins` are the lists before the call.
   */
  method AddEdgeToGraph(graph: Graph, c: int, n: int, ghost outs: map<int, seq<int>>, ghost ins: map<int, seq<int>>)
    requires c in graph && n in graph
    requires forall j :: j in graph && j != c ==> graph[j] != graph[c]
    requires forall j :: j in graph && j != n ==> graph[j] != graph[n]
    requires Snapshot(graph, outs, ins)
    requires NoDup(outs[c]) && NoDup(ins[c]) && NoDup(outs[n]) && NoDup(ins[n])
    modifies graph[c], graph[n]
    ensures Snapshot(graph, outs[c := AddEdge(outs[c], n)], ins[n := AddEdge(ins[n], c)])
  {
    graph[c].AddOutgoing(n);
    graph[n].AddIncoming(c);
  }

  lemma UnionStep(E: set<(int, int)>, S: set<(int, int)>, e: (int, int))
    ensures E + S + {e} == E + (S + {e})
  {
  }

  /** `outs` and `ins` hold the current edge lists of every node of the graph. */
  ghost predicate Snapshot(graph: Graph, outs: map<int, seq<int>>, ins: map<int, seq<int>>)
    reads graph.Values
  {
    && (forall j :: j in outs <==> j in graph)
    && (forall j :: j in ins <==> j in graph)
    && (forall j :: j in graph ==> graph[j].outgoing == outs[j] && graph[j].incoming == ins[j])
  }

  /** The edge lists of every node, taken out of the heap, match `E`. */
  ghost predicate MapsMatch(outs: map<int, seq<int>>, ins: map<int, seq<int>>, E: set<(int, int)>)
  {
    forall j :: j in outs ==>
      && j in ins
      && NoDup(outs[j]) && NoDup(ins[j])
      && Elems(outs[j]) == Succ(E, j)
      && Elems(ins[j]) == Pred(E, j)
  }

  lemma MapsFromGraph(graph: Graph, outs: map<int, seq<int>>, ins: map<int, seq<int>>, E: set<(int, int)>)
    requires ListsMatch(graph, E)
    requires outs == map j | j in graph :: graph[j].outgoing
    requires ins == map j | j in graph :: graph[j].incoming
    ensures Snapshot(graph, outs, ins)
    ensures MapsMatch(outs, ins, E)
  {
    forall j | j in outs
      ensures j in ins && NoDup(outs[j]) && NoDup(ins[j]) && Elems(outs[j]) == Succ(E, j) && Elems(ins[j]) == Pred(E, j)
    {
      assert NodeMatches(graph[j], E, j);
    }
  }

  lemma GraphFromMaps(graph: Graph, outs: map<int, seq<int>>, ins: map<int, seq<int>>, E: set<(int, int)>)
    requires MapsMatch(outs, ins, E)
    requires Snapshot(graph, outs, ins)
    ensures ListsMatch(graph, E)
  {
    forall j | j in graph ensures NodeMatches(graph[j], E, j) {
      assert j in outs;
    }
  }

  /** Adding the edge `(c, n)` to the lists of `c` and `n` makes them match `E + {(c, n)}`. */
  lemma MapsAdd(outs: map<int, seq<int>>, ins: map<int, seq<int>>, E: set<(int, int)>, c: int, n: int)
    requires MapsMatch(outs, ins, E) && c in outs && n in outs
    ensures MapsMatch(outs[c := AddEdge(outs[c], n)], ins[n := AddEdge(ins[n], c)], E + {(c, n)})
  {
    var outs', ins' := outs[c := AddEdge(outs[c], n)], ins[n := AddEdge(ins[n], c)];
    AddEdgeKeepsNoDup(outs[c], n);
    AddEdgeKeepsNoDup(ins[n], c);
    forall j | j in outs'
      ensures j in ins' && NoDup(outs'[j]) && NoDup(ins'[j])
      ensures Elems(outs'[j]) == Succ(E + {(c, n)}, j) && Elems(ins'[j]) == Pred(E + {(c, n)}, j)
    {
      SuccPredAdd(E, c, n, j);
    }
  }

  lemma SuccPredAdd(E: set<(int, int)>, c: int, n: int, j: int)
    ensures Succ(E + {(c, n)}, j) == Succ(E, j) + (if j == c then {n} else {})
    ensures Pred(E + {(c, n)}, j) == Pred(E, j) + (if j == n then {c} else {})
  {
  }

  // ---------------------------------------------------------------------
  // The hub and authority steps
  // ---------------------------------------------------------------------

  /** Every position listed in `idx` lies in 0..n-1. */
  predicate ListInRange(idx: seq<int>, n: int)
  {
    forall t :: 0 <= t < |idx| ==> 0 <= idx[t] < n
  }

  /** The sum of `xs` over the positions listed in `idx`, added left to right. */
  function SumAt(xs: seq<real>, idx: seq<int>): real
    requires ListInRange(idx, |xs|)
  {
    if |idx| == 0 then 0.0
    else SumAt(xs, idx[..|idx| - 1]) + xs[idx[|idx| - 1]]
  }

  /** The sum of squares of `xs`, the running `norm` before its square root. */
  function SumSquares(xs: seq<real>): (r: real)
    ensures r >= 0.0
  {
    if |xs| == 0 then 0.0
    else SumSquares(xs[..|xs| - 1]) + xs[|xs| - 1] * xs[|xs| - 1]
  }

  lemma SumSquaresSnoc(xs: seq<real>, x: real)
    ensures SumSquares(xs + [x]) == SumSquares(xs) + x * x
  {
    assert (xs + [x])[..|xs|] == xs;
  }

  /** A node without edges sums to zero. */
  lemma SumAtEmpty(xs: seq<real>)
    ensures SumAt(xs, []) == 0.0
  {
  }

  /** Sums of non-negative scores are non-negative. */
  lemma {:induction false} SumAtNonNegative(xs: seq<real>, idx: seq<int>)
    requires ListInRange(idx, |xs|)
    requires forall t :: 0 <= t < |xs| ==> xs[t] >= 0.0
    ensures SumAt(xs, idx) >= 0.0
  {
    if |idx| > 0 {
      SumAtNonNegative(xs, idx[..|idx| - 1]);
    }
  }

  /** Taking position `t` out of the list takes its score out of the sum. */
  lemma {:induction false} SumAtRemove(xs: seq<real>, idx: seq<int>, t: int)
    requires ListInRange(idx, |xs|) && 0 <= t < |idx|
    ensures ListInRange(idx[..t] + idx[t + 1..], |xs|)
    ensures SumAt(xs, idx) == SumAt(xs, idx[..t] + idx[t + 1..]) + xs[idx[t]]
    decreases |idx|
  {
    var rest := idx[..t] + idx[t + 1..];
    var m := |idx| - 1;
    if t < m {
      SumAtRemove(xs, idx[..m], t);
      assert idx[..m][..t] + idx[..m][t + 1..] == rest[..|rest| - 1];
      assert rest[|rest| - 1] == idx[m];
    } else {
      assert rest == idx[..m];
    }
  }

  /** The order of the listed positions does not change their sum: it only depends on the multiset. */
  lemma {:induction false} SumAtPermutation(xs: seq<real>, a: seq<int>, b: seq<int>)
    requires ListInRange(a, |xs|) && ListInRange(b, |xs|) && multiset(a) == multiset(b)
    ensures SumAt(xs, a) == SumAt(xs, b)
    decreases |a|
  {
    if |a| == 0 {
      assert |b| == |multiset(b)| == 0;
    } else {
      var m := |a| - 1;
      var x := a[m];
      assert x in multiset(b) by {
        assert a == a[..m] + [x];
      }
      var t :| 0 <= t < |b| && b[t] == x;
      var rest := b[..t] + b[t + 1..];
      SumAtRemove(xs, b, t);
      MultisetRemove(a, m);
      MultisetRemove(b, t);
      assert a[..m] + a[m + 1..] == a[..m];
      assert multiset(a[..m]) == multiset(a) - multiset{x};
      assert multiset(rest) == multiset(b) - multiset{x};
      SumAtPermutation(xs, a[..m], rest);
    }
  }

  lemma MultisetRemove(s: seq<int>, t: int)
    requires 0 <= t < |s|
    ensures multiset(s) == multiset(s[..t] + s[t + 1..]) + multiset{s[t]}
  {
    assert s == s[..t] + [s[t]] + s[t + 1..];
  }

  /** The sum of `scores` over the listed positions: one node's step. */
  method SumScores(scores: array<real>, edges: seq<int>) returns (sum: real)
    requires ListInRange(edges, scores.Length)
    ensures sum == SumAt(scores[..], edges)
  {
    sum := 0.0;
    for t := 0 to |edges|
      invariant sum == SumAt(scores[..], edges[..t])
    {
      assert edges[..t + 1][..t] == edges[..t];
      sum := sum + scores[edges[t]];
    }
    assert edges[..|edges|] == edges;
  }

  /**
    The authority step: each node's new authority is the sum of the hub
    scores of the nodes in its incoming list; `norm` is the sum of squares.
   */
  method AuthorityUpdate(graph: Graph, numNodes: int, hubScores: array<real>, authorityScores: array<real>)
    returns (norm: real)
    requires IndicesInRange(graph, numNodes)
    requires hubScores.Length == numNodes && authorityScores.Length == numNodes
    requires hubScores != authorityScores
    modifies authorityScores
    ensures forall j :: 0 <= j < numNodes ==> authorityScores[j] == SumAt(hubScores[..], graph[j].GetIncoming())
    ensures norm == SumSquares(authorityScores[..])
  {
    ghost var source := hubScores[..];
    norm := 0.0;
    for j := 0 to numNodes
      invariant hubScores[..] == source
      invariant forall j' :: 0 <= j' < j ==> authorityScores[j'] == SumAt(source, graph[j'].incoming)
      invariant norm == SumSquares(authorityScores[..j])
    {
      var authScore := SumScores(hubScores, graph[j].GetIncoming());
      ghost var done := authorityScores[..j];
      authorityScores[j] := authScore;
      assert authorityScores[..j + 1] == done + [authScore];
      SumSquaresSnoc(done, authScore);
      norm := norm + authScore * authScore;
    }
    assert authorityScores[..numNodes] == authorityScores[..];
  }

  /**
    The hub step: each node's new hub score is the sum of the authority
    scores over its `GetOutgoing` list, which is its incoming list; `norm`
    is the sum of squares.
   */
  method HubUpdate(graph: Graph, numNodes: int, authorityScores: array<real>, hubScores: array<real>)
    returns (norm: real)
    requires IndicesInRange(graph, numNodes)
    requires hubScores.Length == numNodes && authorityScores.Length == numNodes
    requires hubScores != authorityScores
    modifies hubScores
    ensures forall j :: 0 <= j < numNodes ==> hubScores[j] == SumAt(authorityScores[..], graph[j].GetOutgoing())
    ensures norm == SumSquares(hubScores[..])
  {
    ghost var source := authorityScores[..];
    norm := 0.0;
    for j := 0 to numNodes
      invariant authorityScores[..] == source
      invariant forall j' :: 0 <= j' < j ==> hubScores[j'] == SumAt(source, graph[j'].incoming)
      invariant norm == SumSquares(hubScores[..j])
    {
      var hubScore := SumScores(authorityScores, graph[j].GetOutgoing());
      ghost var done := hubScores[..j];
      hubScores[j] := hubScore;
      assert hubScores[..j + 1] == done + [hubScore];
      SumSquaresSnoc(done, hubScore);
      norm := norm + hubScore * hubScore;
    }
    assert hubScores[..numNodes] == hubScores[..];
  }

  /** Divides every score by the square root of `norm`. */
  method Normalize(scores: array<real>, norm: real, sqrt: real -> real, div: (real, real) -> real)
    modifies scores
    ensures forall j :: 0 <= j < scores.Length ==> scores[j] == div(old(scores[j]), sqrt(norm))
  {
    var root := sqrt(norm);
    for j := 0 to scores.Length
      invariant forall j' :: 0 <= j' < j ==> scores[j'] == div(old(scores[j']), root)
      invariant forall j' :: j <= j' < scores.Length ==> scores[j'] == old(scores[j'])
    {
      scores[j] := div(scores[j], root);
    }
  }

  // ---------------------------------------------------------------------
  // Ranking
  // ---------------------------------------------------------------------

  /** The final score of each node: the mean of its authority and hub scores. */
  function Combined(authority: seq<real>, hub: seq<real>): (r: seq<real>)
    requires |authority| == |hub|
    ensures |r| == |authority|
    ensures forall i :: 0 <= i < |r| ==> r[i] == (authority[i] + hub[i]) / 2.0
  {
    seq(|authority|, i requires 0 <= i < |authority| => (authority[i] + hub[i]) / 2.0)
  }

  /** Node indices from the highest combined score to the lowest. */
  method RankNodes(authorityScores: seq<real>, hubScores: seq<real>) returns (sorted: seq<int>)
    requires |authorityScores| == |hubScores|
    ensures RankedBy(sorted, Combined(authorityScores, hubScores))
  {
    var numNodes := |authorityScores|;
    var scorePairs: seq<IndexValuePair> := [];
    for i := 0 to numNodes
      invariant PairsOf(scorePairs, Combined(authorityScores, hubScores)[..i])
    {
      scorePairs := scorePairs + [IndexValuePair(i, (authorityScores[i] + hubScores[i]) / 2.0)];
    }
    assert Combined(authorityScores, hubScores)[..numNodes] == Combined(authorityScores, hubScores);
    var ranked := SortThenReverse(scorePairs);
    DescendingRanks(Combined(authorityScores, hubScores), scorePairs, ranked);
    sorted := [];
    for i := 0 to numNodes
      invariant sorted == Indices(ranked)[..i]
    {
      sorted := sorted + [ranked[i].index];
    }
    assert Indices(ranked)[..numNodes] == Indices(ranked);
  }

  // ---------------------------------------------------------------------
  // The rounds, on values
  // ---------------------------------------------------------------------

  /** Every list of positions refers to a position of the list of lists. */
  predicate ListsInRange(lists: seq<seq<int>>)
  {
    forall j :: 0 <= j < |lists| ==> ListInRange(lists[j], |lists|)
  }

  /** Node `j` gets the sum of `scores` over `lists[j]`. */
  function Sums(lists: seq<seq<int>>, scores: seq<real>): (r: seq<real>)
    requires ListsInRange(lists) && |scores| == |lists|
    ensures |r| == |lists|
  {
    seq(|lists|, j requires 0 <= j < |lists| => SumAt(scores, lists[j]))
  }

  /** Every score divided by the square root of the sum of their squares. */
  function Normalized(xs: seq<real>, sqrt: real -> real, div: (real, real) -> real): (r: seq<real>)
    ensures |r| == |xs|
  {
    var root := sqrt(SumSquares(xs));
    seq(|xs|, j requires 0 <= j < |xs| => div(xs[j], root))
  }

  /** The authority and hub scores of every node. */
  datatype HubsAndAuthorities = HubsAndAuthorities(authority: seq<real>, hub: seq<real>)

  /**
    The scores after `k` rounds, from all-ones scores. A round sums the hub
    scores over each node's `incoming` list and normalises them into the new
    authority scores, then sums those over each node's `outgoing` list and
    normalises them into the new hub scores.
   */
  function Rounds(incoming: seq<seq<int>>, outgoing: seq<seq<int>>, k: int,
                  sqrt: real -> real, div: (real, real) -> real): (r: HubsAndAuthorities)
    requires ListsInRange(incoming) && ListsInRange(outgoing) && |incoming| == |outgoing|
    ensures |r.authority| == |incoming| && |r.hub| == |incoming|
    decreases k
  {
    if k <= 0 then
      HubsAndAuthorities(seq(|incoming|, _ => 1.0), seq(|incoming|, _ => 1.0))
    else
      var previous := Rounds(incoming, outgoing, k - 1, sqrt, div);
      var authority := Normalized(Sums(incoming, previous.hub), sqrt, div);
      HubsAndAuthorities(authority, Normalized(Sums(outgoing, authority), sqrt, div))
  }

  /** Lists that are permutations of each other, node by node. */
  ghost predicate SameMultisets(lists: seq<seq<int>>, others: seq<seq<int>>)
  {
    |lists| == |others| && forall j :: 0 <= j < |lists| ==> multiset(lists[j]) == multiset(others[j])
  }

  /** The rounds depend on each node's lists only up to their order. */
  lemma {:induction false} RoundsPermutation(incoming: seq<seq<int>>, outgoing: seq<seq<int>>,
                                             incoming': seq<seq<int>>, outgoing': seq<seq<int>>, k: int,
                                             sqrt: real -> real, div: (real, real) -> real)
    requires ListsInRange(incoming) && ListsInRange(outgoing) && |incoming| == |outgoing|
    requires ListsInRange(incoming') && ListsInRange(outgoing')
    requires SameMultisets(incoming, incoming') && SameMultisets(outgoing, outgoing')
    ensures Rounds(incoming, outgoing, k, sqrt, div) == Rounds(incoming', outgoing', k, sqrt, div)
    decreases k
  {
    if k > 0 {
      var previous := Rounds(incoming, outgoing, k - 1, sqrt, div);
      RoundsPermutation(incoming, outgoing, incoming', outgoing', k - 1, sqrt, div);
      SumsPermutation(incoming, incoming', previous.hub);
      var authority := Normalized(Sums(incoming, previous.hub), sqrt, div);
      SumsPermutation(outgoing, outgoing', authority);
    }
  }

  lemma SumsPermutation(lists: seq<seq<int>>, others: seq<seq<int>>, scores: seq<real>)
    requires ListsInRange(lists) && ListsInRange(others) && SameMultisets(lists, others)
    requires |scores| == |lists|
    ensures Sums(lists, scores) == Sums(others, scores)
  {
    forall j | 0 <= j < |lists| ensures Sums(lists, scores)[j] == Sums(others, scores)[j] {
      SumAtPermutation(scores, lists[j], others[j]);
    }
  }

  /** A node nobody points to gets authority `0 / root` in every round. */
  lemma {:induction false} UnreachedAuthority(incoming: seq<seq<int>>, outgoing: seq<seq<int>>, k: int,
                                             sqrt: real -> real, div: (real, real) -> real, j: int)
    requires ListsInRange(incoming) && ListsInRange(outgoing) && |incoming| == |outgoing|
    requires 0 <= j < |incoming| && incoming[j] == [] && k > 0
    ensures var previous := Rounds(incoming, outgoing, k - 1, sqrt, div);
      Rounds(incoming, outgoing, k, sqrt, div).authority[j]
        == div(0.0, sqrt(SumSquares(Sums(incoming, previous.hub))))
  {
  }

  /**
    The two-word text "cat sat" has the single edge 0 -> 1. Since the hub
    step also sums over the incoming lists, every hub sum of the first round
    is 0, so the hub `norm` is 0 and the hub scores are `0 / sqrt(0)`: with
    floating point, NaN.
   */
  lemma HubNormVanishes(sqrt: real -> real, div: (real, real) -> real)
    requires sqrt(1.0) == 1.0 && forall r :: r != 0.0 ==> div(0.0, r) == 0.0
    ensures var incoming := [[], [0]];
      var authority := Rounds(incoming, incoming, 1, sqrt, div).authority;
      && Sums(incoming, authority) == [0.0, 0.0]
      && SumSquares(Sums(incoming, authority)) == 0.0
      && Rounds(incoming, incoming, 1, sqrt, div).hub == [div(0.0, sqrt(0.0)), div(0.0, sqrt(0.0))]
  {
    var incoming: seq<seq<int>> := [[], [0]];
    var start := Rounds(incoming, incoming, 0, sqrt, div);
    assert start.hub == [1.0, 1.0];
    assert [0][..0] == [];
    assert SumAt(start.hub, [0]) == 1.0;
    assert Sums(incoming, start.hub) == [0.0, 1.0];
    assert SumSquares([0.0, 1.0]) == 1.0;
    var authority := Rounds(incoming, incoming, 1, sqrt, div).authority;
    assert authority[0] == div(0.0, 1.0) == 0.0;
    assert SumAt(authority, [0]) == 0.0;
    assert Sums(incoming, authority) == [0.0, 0.0];
    assert SumSquares([0.0, 0.0]) == 0.0;
  }

  /**
    `states[t]` is the state after `t` rounds, for every `t` the list covers.
    The loop of `runHITS` is specified against such a list, one entry per
    pass, rather than against `Rounds` itself.
   */
  ghost predicate RoundsHistory(incoming: seq<seq<int>>, outgoing: seq<seq<int>>, states: seq<HubsAndAuthorities>,
                                sqrt: real -> real, div: (real, real) -> real)
    requires ListsInRange(incoming) && ListsInRange(outgoing) && |incoming| == |outgoing|
  {
    forall t {:trigger Rounds(incoming, outgoing, t, sqrt, div)} :: 0 <= t < |states| ==> states[t] == Rounds(incoming, outgoing, t, sqrt, div)
  }

  /** The states after 0, 1, ..., `m` rounds. */
  lemma History(incoming: seq<seq<int>>, outgoing: seq<seq<int>>, m: nat, sqrt: real -> real, div: (real, real) -> real)
    returns (states: seq<HubsAndAuthorities>)
    requires ListsInRange(incoming) && ListsInRange(outgoing) && |incoming| == |outgoing|
    ensures |states| == m + 1 && RoundsHistory(incoming, outgoing, states, sqrt, div)
    ensures |states[0].authority| == |incoming| && |states[0].hub| == |incoming|
    ensures forall j :: 0 <= j < |incoming| ==> states[0].authority[j] == 1.0 && states[0].hub[j] == 1.0
    ensures states[m] == Rounds(incoming, outgoing, m, sqrt, div)
  {
    states := seq(m + 1, t requires 0 <= t <= m => Rounds(incoming, outgoing, t, sqrt, div));
    assert states[0] == Rounds(incoming, outgoing, 0, sqrt, div);
  }

  /** The incoming list of every node 0..n-1, as `getIncoming` returns it. */
  ghost function IncomingLists(graph: Graph, n: nat): (r: seq<seq<int>>)
    requires forall j :: 0 <= j < n ==> j in graph
    reads graph.Values
    ensures |r| == n
  {
    seq(n, j requires 0 <= j < n reads graph.Values => graph[j].GetIncoming())
  }

  /** The list `getOutgoing` returns for every node 0..n-1. */
  ghost function OutgoingLists(graph: Graph, n: nat): (r: seq<seq<int>>)
    requires forall j :: 0 <= j < n ==> j in graph
    reads graph.Values
    ensures |r| == n
  {
    seq(n, j requires 0 <= j < n reads graph.Values => graph[j].GetOutgoing())
  }

  /** The lists of a graph whose indices are in range are in range. */
  lemma GraphListsInRange(graph: Graph, n: nat)
    requires IndicesInRange(graph, n)
    ensures ListsInRange(IncomingLists(graph, n)) && ListsInRange(OutgoingLists(graph, n))
  {
  }

  /** The final score of every node after `k` rounds: the mean of its authority and hub scores. */
  function MeanScores(incoming: seq<seq<int>>, outgoing: seq<seq<int>>, k: int,
                      sqrt: real -> real, div: (real, real) -> real): (r: seq<real>)
    requires ListsInRange(incoming) && ListsInRange(outgoing) && |incoming| == |outgoing|
    ensures |r| == |incoming|
  {
    var scores := Rounds(incoming, outgoing, k, sqrt, div);
    Combined(scores.authority, scores.hub)
  }

  /** The final score of every node of `graph` after `k` rounds, over the lists its getters return. */
  ghost function FinalScores(graph: Graph, k: int, sqrt: real -> real, div: (real, real) -> real): (r: seq<real>)
    requires forall j :: 0 <= j < |graph| ==> j in graph
    requires ListsInRange(IncomingLists(graph, |graph|)) && ListsInRange(OutgoingLists(graph, |graph|))
    reads graph.Values
  {
    MeanScores(IncomingLists(graph, |graph|), OutgoingLists(graph, |graph|), k, sqrt, div)
  }

  /**
    One pass of the loop: the authority step, normalisation, the hub step,
    normalisation. It takes the arrays from the state after `i` rounds to
    the state after `i + 1` rounds.
   */
  method Round(graph: Graph, numNodes: nat, authorityScores: array<real>, hubScores: array<real>,
               sqrt: real -> real, div: (real, real) -> real,
               ghost incoming: seq<seq<int>>, ghost outgoing: seq<seq<int>>,
               ghost states: seq<HubsAndAuthorities>, ghost i: nat)
    requires IndicesInRange(graph, numNodes)
    requires hubScores.Length == numNodes && authorityScores.Length == numNodes
    requires hubScores != authorityScores
    requires incoming == IncomingLists(graph, numNodes) && outgoing == OutgoingLists(graph, numNodes)
    requires ListsInRange(incoming) && ListsInRange(outgoing)
    requires RoundsHistory(incoming, outgoing, states, sqrt, div) && i + 1 < |states|
    requires HubsAndAuthorities(authorityScores[..], hubScores[..]) == states[i]
    modifies authorityScores, hubScores
    ensures HubsAndAuthorities(authorityScores[..], hubScores[..]) == states[i + 1]
  {
    assert states[i] == Rounds(incoming, outgoing, i, sqrt, div);
    assert states[i + 1] == Rounds(incoming, outgoing, i + 1, sqrt, div);
    var norm := AuthorityUpdate(graph, numNodes, hubScores, authorityScores);
    ghost var raw := authorityScores[..];
    assert raw == Sums(incoming, hubScores[..]);
    Normalize(authorityScores, norm, sqrt, div);
    assert authorityScores[..] == Normalized(raw, sqrt, div);
    norm := HubUpdate(graph, numNodes, authorityScores, hubScores);
    raw := hubScores[..];
    assert raw == Sums(outgoing, authorityScores[..]);
    Normalize(hubScores, norm, sqrt, div);
    assert hubScores[..] == Normalized(raw, sqrt, div);
  }

  /** The final scores are the mean scores after the rounds the loop runs: `k` of them, or none. */
  lemma FinalScoresOf(graph: Graph, k: int, sqrt: real -> real, div: (real, real) -> real,
                      incoming: seq<seq<int>>, outgoing: seq<seq<int>>)
    requires forall j :: 0 <= j < |graph| ==> j in graph
    requires incoming == IncomingLists(graph, |graph|) && outgoing == OutgoingLists(graph, |graph|)
    requires ListsInRange(incoming) && ListsInRange(outgoing)
    ensures FinalScores(graph, k, sqrt, div) == MeanScores(incoming, outgoing, if k <= 0 then 0 else k, sqrt, div)
  {
  }

  /**
    Runs `k` rounds of the authority step and the hub step, each followed by
    normalisation, from all-ones scores; then ranks the nodes by the mean of
    their final authority and hub scores.
   */
  method RunHITS(graph: Graph, k: int, sqrt: real -> real, div: (real, real) -> real)
    returns (sorted: seq<int>)
    requires IndicesInRange(graph, |graph|)
    requires ListsInRange(IncomingLists(graph, |graph|)) && ListsInRange(OutgoingLists(graph, |graph|))
    ensures RankedBy(sorted, FinalScores(graph, k, sqrt, div))
  {
    var numNodes := |graph|;
    ghost var incoming := IncomingLists(graph, numNodes);
    ghost var outgoing := OutgoingLists(graph, numNodes);
    GraphListsInRange(graph, numNodes);
    var authorityScores, hubScores := ScoresAfterRounds(graph, numNodes, k, sqrt, div, incoming, outgoing);
    FinalScoresOf(graph, k, sqrt, div, incoming, outgoing);
    sorted := RankNodes(authorityScores[..], hubScores[..]);
  }

  /** The two score arrays of `runHITS`, all ones at first, after `k` rounds. */
  method ScoresAfterRounds(graph: Graph, numNodes: nat, k: int, sqrt: real -> real, div: (real, real) -> real,
                           ghost incoming: seq<seq<int>>, ghost outgoing: seq<seq<int>>)
    returns (authorityScores: array<real>, hubScores: array<real>)
    requires IndicesInRange(graph, numNodes)
    requires incoming == IncomingLists(graph, numNodes) && outgoing == OutgoingLists(graph, numNodes)
    requires ListsInRange(incoming) && ListsInRange(outgoing)
    ensures fresh(authorityScores) && fresh(hubScores)
    ensures HubsAndAuthorities(authorityScores[..], hubScores[..])
      == Rounds(incoming, outgoing, if k <= 0 then 0 else k, sqrt, div)
  {
    ghost var states := History(incoming, outgoing, if k <= 0 then 0 else k, sqrt, div);
    authorityScores := new real[numNodes](_ => 1.0);
    hubScores := new real[numNodes](_ => 1.0);
    assert authorityScores[..] == states[0].authority && hubScores[..] == states[0].hub;
    RunRounds(graph, numNodes, authorityScores, hubScores, k, sqrt, div, incoming, outgoing, states);
  }

  /** The loop of `runHITS`: one round per state after the first, on the two score arrays. */
  method RunRounds(graph: Graph, numNodes: nat, authorityScores: array<real>, hubScores: array<real>, k: int,
                   sqrt: real -> real, div: (real, real) -> real,
                   ghost incoming: seq<seq<int>>, ghost outgoing: seq<seq<int>>, ghost states: seq<HubsAndAuthorities>)
    requires IndicesInRange(graph, numNodes)
    requires hubScores.Length == numNodes && authorityScores.Length == numNodes
    requires hubScores != authorityScores
    requires incoming == IncomingLists(graph, numNodes) && outgoing == OutgoingLists(graph, numNodes)
    requires ListsInRange(incoming) && ListsInRange(outgoing)
    requires RoundsHistory(incoming, outgoing, states, sqrt, div) && |states| == (if k <= 0 then 0 else k) + 1
    requires HubsAndAuthorities(authorityScores[..], hubScores[..]) == states[0]
    modifies authorityScores, hubScores
    ensures HubsAndAuthorities(authorityScores[..], hubScores[..]) == states[|states| - 1]
  {
    var i := 0;
    while i < k
      invariant 0 <= i < |states|
      invariant incoming == IncomingLists(graph, numNodes) && outgoing == OutgoingLists(graph, numNodes)
      invariant HubsAndAuthorities(authorityScores[..], hubScores[..]) == states[i]
    {
      Round(graph, numNodes, authorityScores, hubScores, sqrt, div, incoming, outgoing, states, i);
      i := i + 1;
    }
    assert i == |states| - 1;
  }

  // ---------------------------------------------------------------------
  // Keywords
  // ---------------------------------------------------------------------

  /** The word of each ranked index, in rank order. */
  method MakeKeywordList(ordered: seq<int>, words: seq<string>) returns (keywords: seq<string>)
    requires forall t :: 0 <= t < |ordered| ==> 0 <= ordered[t] < |words|
    ensures |keywords| == |ordered|
    ensures forall t :: 0 <= t < |ordered| ==> keywords[t] == words[ordered[t]]
  {
    keywords := [];
    for t := 0 to |ordered|
      invariant |keywords| == t
      invariant forall t' :: 0 <= t' < t ==> keywords[t'] == words[ordered[t']]
    {
      keywords := keywords + [words[ordered[t]]];
    }
  }

  /** The number of rounds `getKeywords` asks `runHITS` for. */
  const KeywordRounds := 10

  /**
    `keywords` are the words of `sentences` as HITS ranks them. `wordList` is
    the sorted vocabulary; `incoming[j]` lists, without duplicates, the words
    that directly precede word `j` in some sentence; `order` ranks the word
    indices by their mean score after `KeywordRounds` rounds in which the hub
    step sums over the incoming lists too, as `getOutgoing` returns them.
   */
  ghost predicate RankedKeywords(sentences: Document, keywords: seq<string>, wordList: seq<string>,
                                 incoming: seq<seq<int>>, order: seq<int>,
                                 sqrt: real -> real, div: (real, real) -> real)
  {
    && StrictlySorted(wordList) && Elems(wordList) == Words(sentences)
    && |incoming| == |wordList| && ListsInRange(incoming)
    && (forall j :: 0 <= j < |incoming| ==> NoDup(incoming[j]) && Elems(incoming[j]) == Pred(Edges(sentences, wordList), j))
    && RankedBy(order, MeanScores(incoming, incoming, KeywordRounds, sqrt, div))
    && |keywords| == |order|
    && (forall t :: 0 <= t < |order| ==> 0 <= order[t] < |wordList| && keywords[t] == wordList[order[t]])
  }

  /**
    The keywords are determined by the sentences (and `sqrt`, `div`): the
    order in which the graph happens to list each node's sources does not
    matter.
   */
  lemma RankedKeywordsUnique(sentences: Document, sqrt: real -> real, div: (real, real) -> real,
                             keywords: seq<string>, wordList: seq<string>, incoming: seq<seq<int>>, order: seq<int>,
                             keywords': seq<string>, wordList': seq<string>, incoming': seq<seq<int>>, order': seq<int>)
    requires RankedKeywords(sentences, keywords, wordList, incoming, order, sqrt, div)
    requires RankedKeywords(sentences, keywords', wordList', incoming', order', sqrt, div)
    ensures keywords == keywords'
  {
    SameVocabulary(wordList, wordList', Words(sentences));
    SamePredecessors(incoming, incoming', Edges(sentences, wordList));
    RoundsPermutation(incoming, incoming, incoming', incoming', KeywordRounds, sqrt, div);
    RankedByUnique(order, order', MeanScores(incoming, incoming, KeywordRounds, sqrt, div));
  }

  lemma SameVocabulary(wordList: seq<string>, wordList': seq<string>, words: set<string>)
    requires StrictlySorted(wordList) && Elems(wordList) == words
    requires StrictlySorted(wordList') && Elems(wordList') == words
    ensures wordList == wordList'
  {
    forall w ensures w in wordList <==> w in wordList' {
      assert w in wordList <==> w in Elems(wordList);
      assert w in wordList' <==> w in Elems(wordList');
    }
    StrictlySortedUnique(wordList, wordList');
  }

  lemma SamePredecessors(incoming: seq<seq<int>>, incoming': seq<seq<int>>, E: set<(int, int)>)
    requires |incoming| == |incoming'|
    requires forall j :: 0 <= j < |incoming| ==> NoDup(incoming[j]) && Elems(incoming[j]) == Pred(E, j)
    requires forall j :: 0 <= j < |incoming'| ==> NoDup(incoming'[j]) && Elems(incoming'[j]) == Pred(E, j)
    ensures SameMultisets(incoming, incoming')
  {
    forall j | 0 <= j < |incoming| ensures multiset(incoming[j]) == multiset(incoming'[j]) {
      NoDupSameMultiset(incoming[j], incoming'[j]);
    }
  }

  /** The getters of a graph built from `E` return duplicate-free lists of each node's sources in `E`, twice. */
  lemma GraphIncomingLists(graph: Graph, n: nat, E: set<(int, int)>)
    requires EdgeLists(graph, n, E)
    ensures forall j :: 0 <= j < n ==> j in graph
    ensures forall j :: 0 <= j < n ==> NoDup(IncomingLists(graph, n)[j]) && Elems(IncomingLists(graph, n)[j]) == Pred(E, j)
    ensures OutgoingLists(graph, n) == IncomingLists(graph, n)
  {
    forall j | 0 <= j < n ensures j in graph && NoDup(IncomingLists(graph, n)[j]) && Elems(IncomingLists(graph, n)[j]) == Pred(E, j) {
      assert j in Range(n);
      assert NodeMatches(graph[j], E, j);
    }
  }

  /**
    The keywords of a document: every distinct word exactly once, ordered
    by its final HITS score after 10 rounds (ties: the alphabetically later
    word first).
   */
  method GetKeywords(sentences: Document, sqrt: real -> real, div: (real, real) -> real)
    returns (keywords: seq<string>, ghost wordList: seq<string>, ghost incoming: seq<seq<int>>, ghost order: seq<int>)
    ensures NoDup(keywords)
    ensures Elems(keywords) == Words(sentences)
    ensures |keywords| == |Words(sentences)|
    ensures RankedKeywords(sentences, keywords, wordList, incoming, order, sqrt, div)
  {
    var words := MakeWordList(sentences);
    wordList := words;
    var graph := MakeGraph(sentences, words);
    EdgeListsInRange(graph, sentences, words);
    assert |graph| == |words| by {
      assert graph.Keys == Range(|words|);
    }
    GraphListsInRange(graph, |graph|);
    GraphIncomingLists(graph, |graph|, Edges(sentences, words));
    incoming := IncomingLists(graph, |graph|);
    var orderedNodes := RunHITS(graph, KeywordRounds, sqrt, div);
    FinalScoresOf(graph, KeywordRounds, sqrt, div, incoming, incoming);
    order := orderedNodes;
    keywords := MakeKeywordList(orderedNodes, words);
    PermutedWords(words, orderedNodes, keywords);
  }

  /** Reading a duplicate-free list through a permutation of its positions gives the same words, once each. */
  lemma PermutedWords(words: seq<string>, order: seq<int>, keywords: seq<string>)
    requires StrictlySorted(words)
    requires |order| == |words| && NoDup(order)
    requires forall a :: 0 <= a < |order| ==> 0 <= order[a] < |words|
    requires forall t :: 0 <= t < |words| ==> t in order
    requires |keywords| == |order| && forall t :: 0 <= t < |order| ==> keywords[t] == words[order[t]]
    ensures NoDup(keywords) && Elems(keywords) == Elems(words) && |Elems(words)| == |words|
  {
    forall a, b | 0 <= a < b < |keywords| ensures keywords[a] != keywords[b] {
      if order[a] < order[b] {
        assert StringLess(words[order[a]], words[order[b]]);
      } else {
        assert StringLess(words[order[b]], words[order[a]]);
      }
      StringLessIrreflexive(keywords[a]);
    }
    forall w | w in words ensures w in keywords {
      var t :| 0 <= t < |words| && words[t] == w;
      assert t in order;
      var a :| 0 <= a < |order| && order[a] == t;
      assert keywords[a] == w;
    }
    StrictlySortedNoDup(words);
    NoDupElemsSize(words);
  }

  lemma {:induction false} NoDupElemsSize<T>(s: seq<T>)
    requires NoDup(s)
    ensures |Elems(s)| == |s|
  {
    if |s| > 0 {
      var n := |s| - 1;
      assert NoDup(s[..n]);
      NoDupElemsSize(s[..n]);
      assert Elems(s) == Elems(s[..n]) + {s[n]};
      assert s[n] !in Elems(s[..n]);
    }
  }
}
