/**
  MEAD centroid-based extractive summarisation (Radev et al., "Centroid-based
  summarization of multiple documents"), with each sentence of the input
  playing the part of a document of the collection.

  The summariser builds a model of the sentences (which sentences hold each
  word, the sorted vocabulary, the average count of each word per sentence),
  weighs each word by average count times log10(N / document frequency),
  takes the top tenth of the words as a centroid pseudo-document, and scores
  each sentence by the centroid words it contains, its position, and its word
  overlap with the first sentence. The top-scoring sentences are returned in
  document order.

  Math.log10 is a parameter of the model (`log10`).
 */
module Mead {
  import opened Collections
  import opened Documents
  import opened IndexValuePairs

  // ---------------------------------------------------------------------
  // What the model of a document should hold
  // ---------------------------------------------------------------------

  /** The indices, in ascending order, of the first `n` sentences that contain `w`. */
  function Containing(d: Document, w: string, n: nat): seq<int>
    requires n <= |d|
  {
    if n == 0 then [] else Containing(d, w, n - 1) + (if w in d[n - 1] then [n - 1] else [])
  }

  /** `Containing` lists exactly the sentences holding `w`, each once, in ascending order. */
  lemma {:induction false} ContainingSpec(d: Document, w: string, n: nat)
    requires n <= |d|
    ensures forall t :: 0 <= t < |Containing(d, w, n)| ==> 0 <= Containing(d, w, n)[t] < n && w in d[Containing(d, w, n)[t]]
    ensures forall i :: 0 <= i < n && w in d[i] ==> i in Containing(d, w, n)
    ensures forall a, b :: 0 <= a < b < |Containing(d, w, n)| ==> Containing(d, w, n)[a] < Containing(d, w, n)[b]
  {
    if n > 0 {
      ContainingSpec(d, w, n - 1);
    }
  }

  /** How often `w` occurs over the first `n` sentences. */
  function Occurrences(d: Document, w: string, n: nat): (r: nat)
    requires n <= |d|
    ensures r > 0 <==> exists i :: 0 <= i < n && w in d[i]
  {
    if n == 0 then 0 else Occurrences(d, w, n - 1) + Count(d[n - 1], w)
  }

  /** A word that occurs nowhere in the first `n` sentences is in none of them. */
  lemma {:induction false} ContainingNone(d: Document, w: string, n: nat)
    requires n <= |d|
    requires forall i :: 0 <= i < n ==> w !in d[i]
    ensures Containing(d, w, n) == []
  {
    if n > 0 {
      ContainingNone(d, w, n - 1);
    }
  }

  /** Sentence `n` is not among the first `n`. */
  lemma ContainingBelow(d: Document, w: string, n: nat)
    requires n <= |d|
    ensures n !in Containing(d, w, n)
  {
    ContainingSpec(d, w, n);
  }

  /** A word of the document lies in between one and all of its sentences. */
  lemma DocumentFrequencyBounds(d: Document, w: string)
    requires w in Words(d)
    ensures 1 <= |Containing(d, w, |d|)| <= |d|
  {
    ContainingSpec(d, w, |d|);
    var r := Containing(d, w, |d|);
    var i :| 0 <= i < |d| && w in d[i];
    assert i in r;
    IncreasingBelow(r, |d|);
  }

  /** A strictly increasing list of indices below `n` has at most `n` entries. */
  lemma {:induction false} IncreasingBelow(r: seq<int>, n: int)
    requires n >= 0
    requires forall a, b :: 0 <= a < b < |r| ==> r[a] < r[b]
    requires forall t :: 0 <= t < |r| ==> 0 <= r[t] < n
    ensures |r| <= n
    decreases |r|
  {
    if |r| > 0 {
      var m := |r| - 1;
      var p := r[..m];
      forall t | 0 <= t < |p| ensures 0 <= p[t] < r[m] {
        assert p[t] == r[t];
      }
      IncreasingBelow(p, r[m]);
      assert |r| == |p| + 1 && r[m] < n;
    }
  }

  /** The average count of `w` per sentence. */
  function AverageCount(d: Document, w: string): real
    requires |d| > 0
  {
    Occurrences(d, w, |d|) as real / |d| as real
  }

  /** A word of the document has a positive average count. */
  lemma AverageCountPositive(d: Document, w: string)
    requires w in Words(d)
    ensures |d| > 0 && AverageCount(d, w) > 0.0
  {
    var i :| 0 <= i < |d| && w in d[i];
    var occurrences := Occurrences(d, w, |d|);
    assert occurrences > 0;
    QuotientPositive(occurrences as real, |d| as real);
  }

  /** A quotient of positive numbers is positive. */
  lemma QuotientPositive(a: real, b: real)
    requires a > 0.0 && b > 0.0
    ensures a / b > 0.0
  {
  }

  /** `tf * Math.log10(numSentences / (double) df)`. */
  function Weight(tf: real, numSentences: int, df: int, log10: real -> real): real
    requires df > 0
  {
    tf * log10(numSentences as real / df as real)
  }

  /** The MEAD weight of `w`: average count times log10(N / document frequency). */
  function CentroidWeight(d: Document, w: string, log10: real -> real): real
    requires w in Words(d)
  {
    DocumentFrequencyBounds(d, w);
    Weight(AverageCount(d, w), |d|, |Containing(d, w, |d|)|, log10)
  }

  // ---------------------------------------------------------------------
  // The scores
  // ---------------------------------------------------------------------

  /** Every word of the centroid document is in `terms`. */
  predicate InTerms(centroidDoc: seq<string>, terms: seq<string>)
  {
    forall t :: 0 <= t < |centroidDoc| ==> centroidDoc[t] in terms
  }

  /**
    The centroid value of sentence `s`: the weights of the centroid words it
    contains, each taken once per centroid entry.
   */
  function CentroidSum(s: Sentence, centroidDoc: seq<string>, weights: seq<real>, terms: seq<string>): real
    requires InTerms(centroidDoc, terms) && |weights| == |terms|
  {
    if |centroidDoc| == 0 then 0.0
    else
      var last := centroidDoc[|centroidDoc| - 1];
      CentroidSum(s, centroidDoc[..|centroidDoc| - 1], weights, terms)
        + (if last in s then weights[IndexOf(terms, last)] else 0.0)
  }

  /** Only which words a sentence contains matters, not how often. */
  lemma {:induction false} CentroidSumByPresence(s1: Sentence, s2: Sentence, centroidDoc: seq<string>, weights: seq<real>, terms: seq<string>)
    requires InTerms(centroidDoc, terms) && |weights| == |terms|
    requires Elems(s1) == Elems(s2)
    ensures CentroidSum(s1, centroidDoc, weights, terms) == CentroidSum(s2, centroidDoc, weights, terms)
  {
    if |centroidDoc| > 0 {
      var last := centroidDoc[|centroidDoc| - 1];
      assert last in s1 <==> last in Elems(s1);
      assert last in s2 <==> last in Elems(s2);
      CentroidSumByPresence(s1, s2, centroidDoc[..|centroidDoc| - 1], weights, terms);
    }
  }

  /** A sentence with no centroid word has centroid value 0. */
  lemma {:induction false} CentroidSumDisjoint(s: Sentence, centroidDoc: seq<string>, weights: seq<real>, terms: seq<string>)
    requires InTerms(centroidDoc, terms) && |weights| == |terms|
    requires forall t :: 0 <= t < |centroidDoc| ==> centroidDoc[t] !in s
    ensures CentroidSum(s, centroidDoc, weights, terms) == 0.0
  {
    if |centroidDoc| > 0 {
      CentroidSumDisjoint(s, centroidDoc[..|centroidDoc| - 1], weights, terms);
    }
  }

  /** With non-negative weights, centroid values are non-negative. */
  lemma {:induction false} CentroidSumNonNegative(s: Sentence, centroidDoc: seq<string>, weights: seq<real>, terms: seq<string>)
    requires InTerms(centroidDoc, terms) && |weights| == |terms|
    requires forall t :: 0 <= t < |weights| ==> weights[t] >= 0.0
    ensures CentroidSum(s, centroidDoc, weights, terms) >= 0.0
  {
    if |centroidDoc| > 0 {
      CentroidSumNonNegative(s, centroidDoc[..|centroidDoc| - 1], weights, terms);
    }
  }

  /** The dot product of two term-count vectors, over the length of the first. */
  function Dot(v: seq<int>, w: seq<int>): int
    requires |v| <= |w|
  {
    if |v| == 0 then 0 else Dot(v[..|v| - 1], w) + v[|v| - 1] * w[|v| - 1]
  }

  /** The sum of the squares of the entries of `v`. */
  function SquareSum(v: seq<int>): (r: int)
  {
    if |v| == 0 then 0 else SquareSum(v[..|v| - 1]) + v[|v| - 1] * v[|v| - 1]
  }

  /** The overlap of a vector with itself is its sum of squares. */
  lemma {:induction false} DotSelf(v: seq<int>)
    ensures Dot(v, v) == SquareSum(v)
  {
    if |v| > 0 {
      var m := |v| - 1;
      DotPrefix(v[..m], v);
      DotSelf(v[..m]);
    }
  }

  /** The dot product only reads the first `|v|` entries of `w`. */
  lemma {:induction false} DotPrefix(v: seq<int>, w: seq<int>)
    requires |v| <= |w|
    ensures Dot(v, w) == Dot(v, w[..|v|])
  {
    if |v| > 0 {
      var m := |v| - 1;
      assert w[..|v|][..m] == w[..m];
      DotPrefix(v[..m], w);
      DotPrefix(v[..m], w[..|v|]);
    }
  }

  /** Counts are never negative, and neither are their dot products. */
  lemma {:induction false} DotNonNegative(v: seq<int>, w: seq<int>)
    requires |v| <= |w|
    requires forall t :: 0 <= t < |v| ==> v[t] >= 0
    requires forall t :: 0 <= t < |w| ==> w[t] >= 0
    ensures Dot(v, w) >= 0
  {
    if |v| > 0 {
      DotNonNegative(v[..|v| - 1], w);
    }
  }

  /** `((size - i) / size) * maxCentroidValue`, the positional value of sentence `i`. */
  function Positional(size: nat, i: int, maxCentroidValue: real): real
    requires size > 0
  {
    ((size - i) as real / size as real) * maxCentroidValue
  }

  /** The first sentence gets the full maximum; later ones get less when it is positive. */
  lemma PositionalDecreasing(size: nat, i: int, j: int, maxCentroidValue: real)
    requires 0 <= i < j < size && maxCentroidValue > 0.0
    ensures Positional(size, 0, maxCentroidValue) == maxCentroidValue
    ensures Positional(size, j, maxCentroidValue) < Positional(size, i, maxCentroidValue)
    ensures 0.0 < Positional(size, j, maxCentroidValue)
  {
    var n := size as real;
    assert (size - j) as real < (size - i) as real;
    assert (size - j) as real / n < (size - i) as real / n;
  }

  /** Each sentence's score: centroid value plus positional value plus first-sentence overlap. */
  function Scores(centroids: seq<real>, positional: seq<real>, overlaps: seq<int>): (r: seq<real>)
    requires |positional| == |centroids| && |overlaps| == |centroids|
    ensures |r| == |centroids|
  {
    seq(|centroids|, i requires 0 <= i < |centroids| => centroids[i] + positional[i] + overlaps[i] as real)
  }

  /** `(int) (n * percent / 100.0)`, raised to 1 when below 1. */
  function SummaryLength(n: int, percent: int): (r: int)
    ensures r >= 1
  {
    if (n * percent) / 100 < 1 then 1 else (n * percent) / 100
  }

  /** Up to 100 percent of at least one sentence never asks for more sentences than there are. */
  lemma SummaryLengthFits(n: int, percent: int)
    requires n >= 1 && percent <= 100
    ensures SummaryLength(n, percent) <= n
  {
    assert n * percent <= n * 100;
  }

  /** More than 100 percent can ask for more sentences than there are: 200 percent of 1 sentence is 2. */
  lemma SummaryLengthOverflows()
    ensures SummaryLength(1, 200) > 1
  {
  }

  /** `(int) (totalTerms * 0.1)`, raised to 1 when there is at least one term. */
  function CentroidSize(totalTerms: nat): (r: nat)
  {
    if totalTerms / 10 < 1 && totalTerms > 0 then 1 else totalTerms / 10
  }

  /** The centroid takes a tenth of the vocabulary, at least one word of a non-empty one. */
  lemma CentroidSizeBounds(totalTerms: nat)
    ensures totalTerms == 0 ==> CentroidSize(totalTerms) == 0
    ensures totalTerms > 0 ==> 1 <= CentroidSize(totalTerms) <= totalTerms
    ensures 10 * CentroidSize(totalTerms) <= totalTerms || CentroidSize(totalTerms) == 1
  {
  }

  /** The first `m` ranked positions beat every later one: a higher value, or an equal value and a later position. */
  lemma RankedPrefixIsTop(order: seq<int>, values: seq<real>, m: int, a: int, b: int)
    requires RankedBy(order, values) && 0 <= m <= |order|
    requires a in order[..m] && b in order[m..]
    ensures 0 <= a < |values| && 0 <= b < |values|
    ensures values[a] > values[b] || (values[a] == values[b] && a > b)
  {
    var x :| 0 <= x < m && order[x] == a;
    var y :| m <= y < |order| && order[y] == b;
  }

  /** The first `m` positions of a ranking, sorted, beat every position left out. */
  lemma SelectionIsTop(selection: seq<int>, order: seq<int>, values: seq<real>, m: int, a: int, b: int)
    requires RankedBy(order, values) && Selected(selection, order, m)
    requires a in selection && 0 <= b < |values| && b !in selection
    ensures 0 <= a < |values|
    ensures values[a] > values[b] || (values[a] == values[b] && a > b)
  {
    assert a in Elems(selection) && b !in Elems(selection);
    assert b in order;
    var y :| 0 <= y < |order| && order[y] == b;
    assert y >= m && order[m..][y - m] == b;
    RankedPrefixIsTop(order, values, m, a, b);
  }

  /** The selected positions are positions of the ranked values. */
  lemma SelectedInRange(selection: seq<int>, order: seq<int>, values: seq<real>, m: int)
    requires RankedBy(order, values) && Selected(selection, order, m)
    ensures forall k :: 0 <= k < |selection| ==> 0 <= selection[k] < |values|
  {
    forall k | 0 <= k < |selection| ensures 0 <= selection[k] < |values| {
      assert selection[k] in Elems(order[..m]);
    }
  }

  /** The MEAD weight of every vocabulary word, in vocabulary order. */
  ghost function CentroidValues(d: Document, terms: seq<string>, log10: real -> real): (r: seq<real>)
    requires forall j :: 0 <= j < |terms| ==> terms[j] in Words(d)
    ensures |r| == |terms|
  {
    seq(|terms|, j requires 0 <= j < |terms| => CentroidWeight(d, terms[j], log10))
  }

  /** The words at the first `n` positions of the ranking `order`. */
  function RankedWords(terms: seq<string>, order: seq<int>, n: int): (r: seq<string>)
    requires 0 <= n <= |order|
    requires forall a :: 0 <= a < |order| ==> 0 <= order[a] < |terms|
    ensures |r| == n && InTerms(r, terms)
  {
    seq(n, t requires 0 <= t < n => terms[order[t]])
  }

  /** The centroid value of every sentence. */
  function DocCentroids(d: Document, centroidDoc: seq<string>, weights: seq<real>, terms: seq<string>): (r: seq<real>)
    requires InTerms(centroidDoc, terms) && |weights| == |terms|
    ensures |r| == |d|
  {
    seq(|d|, i requires 0 <= i < |d| => CentroidSum(d[i], centroidDoc, weights, terms))
  }

  /** The centroid value of every sentence, for the centroid of the top words under the ranking `centroidOrder`. */
  ghost function SentenceCentroids(d: Document, terms: seq<string>, centroidOrder: seq<int>, log10: real -> real): (r: seq<real>)
    requires forall j :: 0 <= j < |terms| ==> terms[j] in Words(d)
    requires RankedBy(centroidOrder, CentroidValues(d, terms, log10))
    ensures |r| == |d|
  {
    CentroidSizeBounds(|terms|);
    DocCentroids(d, RankedWords(terms, centroidOrder, CentroidSize(|terms|)), CentroidValues(d, terms, log10), terms)
  }

  /** The term-count vector of a sentence over `terms`. */
  function Vector(s: Sentence, terms: seq<string>): (r: seq<int>)
    ensures |r| == |terms|
  {
    seq(|terms|, j requires 0 <= j < |terms| => Count(s, terms[j]))
  }

  /** The overlap of every sentence with the first. */
  function Overlaps(d: Document, terms: seq<string>): (r: seq<int>)
    requires |d| > 0
    ensures |r| == |d|
  {
    seq(|d|, i requires 0 <= i < |d| => Dot(Vector(d[i], terms), Vector(d[0], terms)))
  }

  /** The positional value of every sentence. */
  function Positionals(size: nat, maxCentroidValue: real): (r: seq<real>)
    ensures |r| == size
  {
    seq(size, i requires 0 <= i < size => Positional(size, i, maxCentroidValue))
  }

  // ---------------------------------------------------------------------
  // The summariser
  // ---------------------------------------------------------------------

  class MeadAlgorithm {
    var docFrequencies: map<string, seq<int>>
    var terms: seq<string>
    var averageTermFrequencies: map<string, real>

    /** The model of `d` is complete. */
    ghost predicate Built(d: Document)
      reads this
    {
      && docFrequencies.Keys == Words(d)
      && (forall w :: w in docFrequencies ==> docFrequencies[w] == Containing(d, w, |d|))
      && StrictlySorted(terms)
      && Elems(terms) == Words(d)
      && averageTermFrequencies.Keys == Words(d)
      && (forall w :: w in averageTermFrequencies ==> |d| > 0 && averageTermFrequencies[w] == AverageCount(d, w))
    }

    /**
      The source leaves the three fields null here; the model starts them
      empty instead. Nothing reads them before `GetSelection` resets them
      through `InitModel`.
     */
    constructor ()
      ensures docFrequencies == map[] && terms == [] && averageTermFrequencies == map[]
    {
      docFrequencies := map[];
      terms := [];
      averageTermFrequencies := map[];
    }

    /** Resets the model. */
    method InitModel()
      modifies this
      ensures docFrequencies == map[] && terms == [] && averageTermFrequencies == map[]
    {
      docFrequencies := map[];
      terms := [];
      averageTermFrequencies := map[];
    }

    /** Builds the whole model of the sentences. */
    method BuildModel(sentences: Document)
      requires docFrequencies == map[] && terms == [] && averageTermFrequencies == map[]
      modifies this
      ensures Built(sentences)
    {
      MakeDocFrequencies(sentences);
      MakeTerms();
      MakeAverageTermFrequencies(sentences);
    }

    /**
      For every word, the indices of the sentences containing it: each such
      sentence once, in ascending order.
     */
    method MakeDocFrequencies(sentences: Document)
      requires docFrequencies == map[]
      modifies this
      ensures docFrequencies.Keys == Words(sentences)
      ensures forall w :: w in docFrequencies ==> docFrequencies[w] == Containing(sentences, w, |sentences|)
      ensures terms == old(terms) && averageTermFrequencies == old(averageTermFrequencies)
    {
      for i := 0 to |sentences|
        invariant docFrequencies.Keys == Words(sentences[..i])
        invariant forall w :: w in docFrequencies ==> docFrequencies[w] == Containing(sentences, w, i)
        invariant terms == old(terms) && averageTermFrequencies == old(averageTermFrequencies)
      {
        AddSentenceFrequencies(sentences, i);
      }
      assert sentences[..|sentences|] == sentences;
    }

    /** The inner loop of `makeDocFrequencies`: records sentence `i` for each of its words. */
    method AddSentenceFrequencies(sentences: Document, i: int)
      requires 0 <= i < |sentences|
      requires docFrequencies.Keys == Words(sentences[..i])
      requires forall w :: w in docFrequencies ==> docFrequencies[w] == Containing(sentences, w, i)
      modifies this
      ensures docFrequencies.Keys == Words(sentences[..i + 1])
      ensures forall w :: w in docFrequencies ==> docFrequencies[w] == Containing(sentences, w, i + 1)
      ensures terms == old(terms) && averageTermFrequencies == old(averageTermFrequencies)
    {
      var sentence := sentences[i];
      for k := 0 to |sentence|
        invariant docFrequencies.Keys == Words(sentences[..i]) + Elems(sentence[..k])
        invariant forall w :: w in docFrequencies ==>
          docFrequencies[w] == if w in Elems(sentence[..k]) then Containing(sentences, w, i) + [i] else Containing(sentences, w, i)
        invariant terms == old(terms) && averageTermFrequencies == old(averageTermFrequencies)
      {
        ElemsPrefix(sentence, k);
        docFrequencies := RecordSentence(docFrequencies, sentences, i, Elems(sentence[..k]), sentence[k]);
      }
      assert sentence[..|sentence|] == sentence;
      WordsExtend(sentences, i);
    }

    /** The sorted vocabulary: the keys of the document-frequency table, in ascending order. */
    method MakeTerms()
      requires terms == []
      modifies this
      ensures StrictlySorted(terms) && Elems(terms) == docFrequencies.Keys
      ensures docFrequencies == old(docFrequencies) && averageTermFrequencies == old(averageTermFrequencies)
    {
      var keys := docFrequencies.Keys;
      var remaining := keys;
      while remaining != {}
        invariant remaining <= keys
        invariant NoDup(terms)
        invariant Elems(terms) == keys - remaining
        invariant docFrequencies == old(docFrequencies) && averageTermFrequencies == old(averageTermFrequencies)
        decreases |remaining|
      {
        var key :| key in remaining;
        NoDupAppendString(terms, key);
        terms := terms + [key];
        remaining := remaining - {key};
      }
      var sorted := SortStrings(terms);
      SortedPermutationStrict(terms, sorted);
      terms := sorted;
    }

    /** The average count of each word per sentence. */
    method MakeAverageTermFrequencies(sentences: Document)
      requires averageTermFrequencies == map[]
      modifies this
      ensures averageTermFrequencies.Keys == Words(sentences)
      ensures forall w :: w in averageTermFrequencies ==>
        |sentences| > 0 && averageTermFrequencies[w] == AverageCount(sentences, w)
      ensures docFrequencies == old(docFrequencies) && terms == old(terms)
    {
      for i := 0 to |sentences|
        invariant averageTermFrequencies.Keys == Words(sentences[..i])
        invariant forall w :: w in averageTermFrequencies ==> averageTermFrequencies[w] == Occurrences(sentences, w, i) as real
        invariant docFrequencies == old(docFrequencies) && terms == old(terms)
      {
        AddSentenceCounts(sentences, i);
      }
      assert sentences[..|sentences|] == sentences;
      var numDocs := |sentences|;
      DivideCounts(numDocs);
    }

    /** The second loop of `makeAverageTermFrequencies`: each count is divided by the number of sentences. */
    method DivideCounts(numDocs: int)
      requires averageTermFrequencies != map[] ==> numDocs > 0
      modifies this
      ensures averageTermFrequencies.Keys == old(averageTermFrequencies).Keys
      ensures forall w :: w in averageTermFrequencies ==>
        averageTermFrequencies[w] == old(averageTermFrequencies)[w] / numDocs as real
      ensures docFrequencies == old(docFrequencies) && terms == old(terms)
    {
      ghost var totals := averageTermFrequencies;
      var remaining := averageTermFrequencies.Keys;
      while remaining != {}
        invariant remaining <= totals.Keys && averageTermFrequencies.Keys == totals.Keys
        invariant forall w :: w in totals ==>
          averageTermFrequencies[w] == if w in remaining then totals[w] else totals[w] / numDocs as real
        invariant docFrequencies == old(docFrequencies) && terms == old(terms)
        decreases |remaining|
      {
        var term :| term in remaining;
        averageTermFrequencies := averageTermFrequencies[term := averageTermFrequencies[term] / numDocs as real];
        remaining := remaining - {term};
      }
    }

    /** The first loop of `makeAverageTermFrequencies`, for sentence `i`: one more for each token. */
    method AddSentenceCounts(sentences: Document, i: int)
      requires 0 <= i < |sentences|
      requires averageTermFrequencies.Keys == Words(sentences[..i])
      requires forall w :: w in averageTermFrequencies ==> averageTermFrequencies[w] == Occurrences(sentences, w, i) as real
      modifies this
      ensures averageTermFrequencies.Keys == Words(sentences[..i + 1])
      ensures forall w :: w in averageTermFrequencies ==> averageTermFrequencies[w] == Occurrences(sentences, w, i + 1) as real
      ensures docFrequencies == old(docFrequencies) && terms == old(terms)
    {
      var sentence := sentences[i];
      for k := 0 to |sentence|
        invariant averageTermFrequencies.Keys == Words(sentences[..i]) + Elems(sentence[..k])
        invariant forall w :: w in averageTermFrequencies ==>
          averageTermFrequencies[w] == (Occurrences(sentences, w, i) + Count(sentence[..k], w)) as real
        invariant docFrequencies == old(docFrequencies) && terms == old(terms)
      {
        ElemsPrefix(sentence, k);
        CountPrefix(sentence, k);
        averageTermFrequencies := CountToken(averageTermFrequencies, sentences, i, sentence[..k], sentence[k]);
      }
      assert sentence[..|sentence|] == sentence;
      WordsExtend(sentences, i);
    }

    /** The MEAD weight of each vocabulary word, in vocabulary order. */
    method MakeCentroidValues(ghost sentences: Document, numSentences: int, log10: real -> real)
      returns (centroidValues: seq<real>)
      requires Built(sentences) && numSentences == |sentences|
      ensures |centroidValues| == |terms|
      ensures forall j :: 0 <= j < |terms| ==>
        terms[j] in Words(sentences) && centroidValues[j] == CentroidWeight(sentences, terms[j], log10)
    {
      centroidValues := [];
      for j := 0 to |terms|
        invariant |centroidValues| == j
        invariant forall j' :: 0 <= j' < j ==>
          terms[j'] in Words(sentences) && centroidValues[j'] == CentroidWeight(sentences, terms[j'], log10)
      {
        var term := terms[j];
        assert term in Elems(terms);
        DocumentFrequencyBounds(sentences, term);
        var tf := averageTermFrequencies[term];
        var df := |docFrequencies[term]|;
        assert tf == AverageCount(sentences, term) && df == |Containing(sentences, term, |sentences|)|;
        centroidValues := centroidValues + [Weight(tf, numSentences, df, log10)];
      }
    }

    /**
      The centroid pseudo-document: the highest-weighted tenth of the
      vocabulary (at least one word of a non-empty one), highest weight
      first, equal weights with the later word first.
     */
    method MakeCentroidDocument(centroidValues: seq<real>) returns (centroidDoc: seq<string>, ghost order: seq<int>)
      requires |centroidValues| == |terms|
      ensures RankedBy(order, centroidValues)
      ensures |centroidDoc| == CentroidSize(|centroidValues|)
      ensures forall t :: 0 <= t < |centroidDoc| ==> centroidDoc[t] == terms[order[t]]
    {
      var pairs := PairUp(centroidValues);
      var ranked := SortThenReverse(pairs);
      DescendingRanks(centroidValues, pairs, ranked);
      order := Indices(ranked);
      var totalTerms := |ranked|;
      var topTerms := totalTerms / 10;
      if topTerms < 1 && |centroidValues| > 0 {
        topTerms := 1;
      }
      centroidDoc := TopTerms(terms, ranked, topTerms);
    }

    /** The centroid value of every sentence. */
    method MakeDocumentCentroids(sentences: Document, centroidValues: seq<real>, centroidDoc: seq<string>)
      returns (docCentroidValues: seq<real>)
      requires InTerms(centroidDoc, terms) && |centroidValues| == |terms|
      ensures |docCentroidValues| == |sentences|
      ensures forall i :: 0 <= i < |sentences| ==>
        docCentroidValues[i] == CentroidSum(sentences[i], centroidDoc, centroidValues, terms)
    {
      docCentroidValues := [];
      for i := 0 to |sentences|
        invariant |docCentroidValues| == i
        invariant forall i' :: 0 <= i' < i ==>
          docCentroidValues[i'] == CentroidSum(sentences[i'], centroidDoc, centroidValues, terms)
      {
        var document := sentences[i];
        var total := 0.0;
        for t := 0 to |centroidDoc|
          invariant total == CentroidSum(document, centroidDoc[..t], centroidValues, terms)
        {
          var term := centroidDoc[t];
          assert centroidDoc[..t + 1][..t] == centroidDoc[..t];
          if term in document {
            total := total + centroidValues[IndexOf(terms, term)];
          }
        }
        assert centroidDoc[..|centroidDoc|] == centroidDoc;
        docCentroidValues := docCentroidValues + [total];
      }
    }

    /** The term-count vector of every sentence over `sentenceTerms`. */
    method MakeSentenceVectors(sentences: Document, sentenceTerms: seq<string>) returns (sentenceVectors: seq<seq<int>>)
      ensures |sentenceVectors| == |sentences|
      ensures forall i :: 0 <= i < |sentences| ==> |sentenceVectors[i]| == |sentenceTerms|
      ensures forall i, j :: 0 <= i < |sentences| && 0 <= j < |sentenceTerms| ==>
        sentenceVectors[i][j] == Count(sentences[i], sentenceTerms[j])
    {
      sentenceVectors := [];
      for i := 0 to |sentences|
        invariant |sentenceVectors| == i
        invariant forall i' :: 0 <= i' < i ==> |sentenceVectors[i']| == |sentenceTerms|
        invariant forall i', j :: 0 <= i' < i && 0 <= j < |sentenceTerms| ==>
          sentenceVectors[i'][j] == Count(sentences[i'], sentenceTerms[j])
      {
        var document := sentences[i];
        var sentenceVector: seq<int> := [];
        for j := 0 to |sentenceTerms|
          invariant |sentenceVector| == j
          invariant forall j' :: 0 <= j' < j ==> sentenceVector[j'] == Count(document, sentenceTerms[j'])
        {
          sentenceVector := sentenceVector + [Count(document, sentenceTerms[j])];
        }
        sentenceVectors := sentenceVectors + [sentenceVector];
      }
    }

    /** The positional value of every sentence, from the full maximum for the first down towards zero. */
    method MakePositionalValues(size: nat, maxCentroidValue: real) returns (posValues: seq<real>)
      ensures |posValues| == size
      ensures forall i :: 0 <= i < size ==> posValues[i] == Positional(size, i, maxCentroidValue)
    {
      posValues := [];
      for i := 0 to size
        invariant |posValues| == i
        invariant forall i' :: 0 <= i' < i ==> posValues[i'] == Positional(size, i', maxCentroidValue)
      {
        posValues := posValues + [((size - i) as real / size as real) * maxCentroidValue];
      }
    }

    /**
      The overlap of every sentence vector with the first one. Fails when
      there is no first vector, or when a vector is longer than the first.
     */
    method MakeFirstSentenceOverlaps(sentenceVectors: seq<seq<int>>) returns (r: Result<seq<int>>)
      ensures r.Ok? <==> |sentenceVectors| > 0 && forall i :: 0 <= i < |sentenceVectors| ==> |sentenceVectors[i]| <= |sentenceVectors[0]|
      ensures r.Err? ==> r.error == IndexOutOfBounds
      ensures r.Ok? ==> |r.value| == |sentenceVectors|
      ensures r.Ok? ==> forall i :: 0 <= i < |sentenceVectors| ==> r.value[i] == Dot(sentenceVectors[i], sentenceVectors[0])
    {
      if |sentenceVectors| == 0 {
        return Err(IndexOutOfBounds);
      }
      var firstSentence := sentenceVectors[0];
      var overlaps: seq<int> := [];
      for i := 0 to |sentenceVectors|
        invariant |overlaps| == i
        invariant forall i' :: 0 <= i' < i ==> |sentenceVectors[i']| <= |firstSentence|
        invariant forall i' :: 0 <= i' < i ==> overlaps[i'] == Dot(sentenceVectors[i'], firstSentence)
      {
        var overlap := Overlap(sentenceVectors[i], firstSentence);
        if overlap.Err? {
          return Err(IndexOutOfBounds);
        }
        overlaps := overlaps + [overlap.value];
      }
      return Ok(overlaps);
    }

    /** Pairs each sentence index with its score. */
    method MakeSentenceScores(docCentroidValues: seq<real>, positionalValues: seq<real>, overlaps: seq<int>)
      returns (pairs: seq<IndexValuePair>)
      requires |positionalValues| == |docCentroidValues| && |overlaps| == |docCentroidValues|
      ensures PairsOf(pairs, Scores(docCentroidValues, positionalValues, overlaps))
    {
      pairs := [];
      for i := 0 to |docCentroidValues|
        invariant |pairs| == i
        invariant forall k :: 0 <= k < i ==>
          pairs[k] == IndexValuePair(k, Scores(docCentroidValues, positionalValues, overlaps)[k])
      {
        pairs := pairs + [IndexValuePair(i, docCentroidValues[i] + positionalValues[i] + overlaps[i] as real)];
      }
    }

    /**
      The indices of the top `SummaryLength` sentences, in ascending order.
      Fails when that length exceeds the number of sentences.
     */
    method MakeSummarySelection(sentenceScores: seq<IndexValuePair>, percent: int)
      returns (r: Result<seq<int>>, ghost order: seq<int>)
      requires Indexed(sentenceScores)
      ensures r.Err? <==> SummaryLength(|sentenceScores|, percent) > |sentenceScores|
      ensures r.Err? ==> r.error == IndexOutOfBounds
      ensures RankedBy(order, Values(sentenceScores))
      ensures r.Ok? ==> Selected(r.value, order, SummaryLength(|sentenceScores|, percent))
    {
      ghost var values := Values(sentenceScores);
      ValuesPairs(sentenceScores);
      var summaryLength := (|sentenceScores| * percent) / 100;
      if summaryLength < 1 {
        summaryLength := 1;
      }
      var ranked := SortThenReverse(sentenceScores);
      DescendingRanks(values, sentenceScores, ranked);
      order := Indices(ranked);
      if summaryLength > |ranked| {
        return Err(IndexOutOfBounds), order;
      }
      var indices := TopIndices(ranked, summaryLength);
      assert indices == order[..summaryLength];
      NoDupPrefix(order, summaryLength);
      var sorted := SortInts(indices);
      SortedIntsPermutation(indices, sorted);
      return Ok(sorted), order;
    }

    /**
      The sentences to keep, in document order: the `SummaryLength` best by
      score, where a sentence's score is its centroid value (the weights of
      the top tenth of the vocabulary it contains), plus its positional value,
      plus its overlap with the first sentence. The ghost results expose the
      two rankings and the maximum centroid value the selection is made from.
     */
    method GetSelection(sentences: Document, percentage: int, log10: real -> real)
      returns (r: Result<seq<int>>, ghost centroidOrder: seq<int>, ghost maxCentroid: real, ghost scoreOrder: seq<int>)
      modifies this
      ensures Built(sentences)
      ensures |sentences| == 0 ==> r == Err(NoSuchElement)
      ensures |sentences| > 0 ==> (r.Err? <==> SummaryLength(|sentences|, percentage) > |sentences|)
      ensures |sentences| > 0 && r.Err? ==> r.error == IndexOutOfBounds
      ensures r.Ok? ==>
        && IncreasingInts(r.value)
        && |r.value| == SummaryLength(|sentences|, percentage)
        && forall k :: 0 <= k < |r.value| ==> 0 <= r.value[k] < |sentences|
      ensures r.Ok? ==> MeadSelection(sentences, terms, percentage, log10, r.value, centroidOrder, maxCentroid, scoreOrder)
    {
      InitModel();
      BuildModel(sentences);
      var docCentroidValues;
      docCentroidValues, centroidOrder := CentroidScores(sentences, log10);
      var maxCentroidValue := Max(docCentroidValues);
      if maxCentroidValue.Err? {
        return Err(NoSuchElement), centroidOrder, 0.0, [];
      }
      maxCentroid := maxCentroidValue.value;
      r, scoreOrder := SelectSentences(sentences, terms, docCentroidValues, maxCentroidValue.value, percentage);
    }

    /** The centroid value of every sentence, from the centroid built on the model. */
    method CentroidScores(sentences: Document, log10: real -> real)
      returns (docCentroidValues: seq<real>, ghost centroidOrder: seq<int>)
      requires Built(sentences)
      ensures RankedBy(centroidOrder, CentroidValues(sentences, terms, log10))
      ensures docCentroidValues == SentenceCentroids(sentences, terms, centroidOrder, log10)
    {
      var centroidValues := MakeCentroidValues(sentences, |sentences|, log10);
      assert centroidValues == CentroidValues(sentences, terms, log10);
      var centroidDoc;
      centroidDoc, centroidOrder := MakeCentroidDocument(centroidValues);
      assert centroidDoc == RankedWords(terms, centroidOrder, CentroidSize(|terms|));
      docCentroidValues := MakeDocumentCentroids(sentences, centroidValues, centroidDoc);
    }

    /**
      The selection, given each sentence's centroid value and their
      maximum: scores are centroid plus positional value plus overlap with
      the first sentence, and the top `SummaryLength` are kept.
     */
    method SelectSentences(sentences: Document, sentenceTerms: seq<string>, docCentroidValues: seq<real>, maxCentroid: real, percentage: int)
      returns (r: Result<seq<int>>, ghost scoreOrder: seq<int>)
      requires |sentences| > 0 && |docCentroidValues| == |sentences|
      ensures r.Err? <==> SummaryLength(|sentences|, percentage) > |sentences|
      ensures r.Err? ==> r.error == IndexOutOfBounds
      ensures r.Ok? ==>
        && IncreasingInts(r.value)
        && |r.value| == SummaryLength(|sentences|, percentage)
        && forall k :: 0 <= k < |r.value| ==> 0 <= r.value[k] < |sentences|
      ensures r.Ok? ==>
        && RankedBy(scoreOrder, Scores(docCentroidValues, Positionals(|sentences|, maxCentroid), Overlaps(sentences, sentenceTerms)))
        && Selected(r.value, scoreOrder, SummaryLength(|sentences|, percentage))
    {
      var positionalValues := MakePositionalValues(|sentences|, maxCentroid);
      assert positionalValues == Positionals(|sentences|, maxCentroid);
      var sentenceVectors := MakeSentenceVectors(sentences, sentenceTerms);
      forall i | 0 <= i < |sentences| ensures sentenceVectors[i] == Vector(sentences[i], sentenceTerms) {
      }
      var overlaps := MakeFirstSentenceOverlaps(sentenceVectors);
      if overlaps.Err? {
        assert false;
      }
      assert overlaps.value == Overlaps(sentences, sentenceTerms);
      var sentenceScores := MakeSentenceScores(docCentroidValues, positionalValues, overlaps.value);
      ghost var scores := Scores(docCentroidValues, positionalValues, overlaps.value);
      assert Values(sentenceScores) == scores;
      r, scoreOrder := MakeSummarySelection(sentenceScores, percentage);
      if r.Ok? {
        SelectedInRange(r.value, scoreOrder, scores, SummaryLength(|sentences|, percentage));
      }
    }
  }

  /** The overlap of one vector with the first: fails when `vector` is the longer one. */
  method Overlap(vector: seq<int>, firstSentence: seq<int>) returns (r: Result<int>)
    ensures r.Ok? <==> |vector| <= |firstSentence|
    ensures r.Err? ==> r.error == IndexOutOfBounds
    ensures r.Ok? ==> r.value == Dot(vector, firstSentence)
  {
    var overlap := 0;
    for j := 0 to |vector|
      invariant j <= |firstSentence|
      invariant overlap == Dot(vector[..j], firstSentence)
    {
      if j >= |firstSentence| {
        return Err(IndexOutOfBounds);
      }
      assert vector[..j + 1][..j] == vector[..j];
      overlap := overlap + vector[j] * firstSentence[j];
    }
    assert vector[..|vector|] == vector;
    return Ok(overlap);
  }

  /** The indices of the first `n` ranked pairs, in rank order. */
  method TopIndices(ranked: seq<IndexValuePair>, n: int) returns (indices: seq<int>)
    requires 0 <= n <= |ranked|
    ensures indices == Indices(ranked)[..n]
  {
    indices := [];
    for i := 0 to n
      invariant indices == Indices(ranked)[..i]
    {
      indices := indices + [ranked[i].index];
    }
  }

  /**
    `selection` holds the first `m` positions of the ranking `order`, in
    ascending order.
   */
  ghost predicate Selected(selection: seq<int>, order: seq<int>, m: int)
  {
    && 0 <= m <= |order|
    && |selection| == m
    && IncreasingInts(selection)
    && Elems(selection) == Elems(order[..m])
  }

  /**
    `selection` is MEAD's choice for the document `d` over its vocabulary
    `terms`: `centroidOrder` ranks the terms by centroid weight,
    `maxCentroid` is the largest sentence centroid value, `scoreOrder` ranks
    the sentences by centroid plus positional plus overlap score, and the
    selection is the top `SummaryLength` of that ranking, ascending.
   */
  ghost predicate MeadSelection(d: Document, terms: seq<string>, percentage: int, log10: real -> real,
                                selection: seq<int>, centroidOrder: seq<int>, maxCentroid: real, scoreOrder: seq<int>)
  {
    && |d| > 0
    && Elems(terms) == Words(d)
    && RankedBy(centroidOrder, CentroidValues(d, terms, log10))
    && var centroids := SentenceCentroids(d, terms, centroidOrder, log10);
       && maxCentroid in centroids
       && (forall x :: x in centroids ==> x <= maxCentroid)
       && RankedBy(scoreOrder, Scores(centroids, Positionals(|d|, maxCentroid), Overlaps(d, terms)))
       && Selected(selection, scoreOrder, SummaryLength(|d|, percentage))
  }

  /** A prefix of a duplicate-free list is duplicate-free. */
  lemma NoDupPrefix(s: seq<int>, m: int)
    requires NoDup(s) && 0 <= m <= |s|
    ensures NoDup(s[..m])
  {
  }

  /** The words of the first `topTerms` ranked pairs, in rank order. */
  method TopTerms(terms: seq<string>, ranked: seq<IndexValuePair>, topTerms: int) returns (centroidDoc: seq<string>)
    requires 0 <= topTerms <= |ranked|
    requires forall t :: 0 <= t < |ranked| ==> 0 <= ranked[t].index < |terms|
    ensures |centroidDoc| == topTerms
    ensures forall t :: 0 <= t < topTerms ==> centroidDoc[t] == terms[ranked[t].index]
  {
    centroidDoc := [];
    for i := 0 to topTerms
      invariant |centroidDoc| == i
      invariant forall t :: 0 <= t < i ==> centroidDoc[t] == terms[ranked[t].index]
    {
      centroidDoc := centroidDoc + [terms[ranked[i].index]];
    }
  }

  /**
    One step of the inner loop of `makeDocFrequencies`: sentence `i` is
    recorded for `word`, its next token, unless it already is; `seen` holds
    the tokens of sentence `i` before `word`.
   */
  method RecordSentence(docFrequencies: map<string, seq<int>>, sentences: Document, i: int, ghost seen: set<string>, word: string)
    returns (r: map<string, seq<int>>)
    requires 0 <= i < |sentences|
    requires docFrequencies.Keys == Words(sentences[..i]) + seen
    requires forall w :: w in docFrequencies ==>
      docFrequencies[w] == if w in seen then Containing(sentences, w, i) + [i] else Containing(sentences, w, i)
    ensures r.Keys == Words(sentences[..i]) + (seen + {word})
    ensures forall w :: w in r ==>
      r[w] == if w in seen + {word} then Containing(sentences, w, i) + [i] else Containing(sentences, w, i)
  {
    ContainingBelow(sentences, word, i);
    var list: seq<int>;
    if word !in docFrequencies {
      WordsPrefix(sentences, i, word);
      ContainingNone(sentences, word, i);
      list := [i];
    } else if i !in docFrequencies[word] {
      assert word !in seen;
      list := docFrequencies[word] + [i];
    } else {
      assert word in seen;
      list := docFrequencies[word];
    }
    assert list == Containing(sentences, word, i) + [i];
    r := docFrequencies[word := list];
    assert r.Keys == docFrequencies.Keys + {word};
    forall w | w in r
      ensures r[w] == if w in seen + {word} then Containing(sentences, w, i) + [i] else Containing(sentences, w, i)
    {
      if w != word {
        assert r[w] == docFrequencies[w];
      }
    }
  }

  /**
    One step of the first loop of `makeAverageTermFrequencies`: one more
    for `term`, the next token of sentence `i`; `seen` holds the tokens of
    sentence `i` before `term`.
   */
  method CountToken(counts: map<string, real>, sentences: Document, i: int, ghost seen: seq<string>, term: string)
    returns (r: map<string, real>)
    requires 0 <= i < |sentences|
    requires counts.Keys == Words(sentences[..i]) + Elems(seen)
    requires forall w :: w in counts ==> counts[w] == (Occurrences(sentences, w, i) + Count(seen, w)) as real
    ensures r.Keys == Words(sentences[..i]) + (Elems(seen) + {term})
    ensures forall w :: w in r ==>
      r[w] == (Occurrences(sentences, w, i) + Count(seen, w) + (if w == term then 1 else 0)) as real
  {
    if term in counts {
      r := counts[term := counts[term] + 1.0];
    } else {
      WordsPrefix(sentences, i, term);
      assert term !in seen;
      r := counts[term := 1.0];
    }
  }

  /** Extending a prefix by one token adds that token. */
  lemma ElemsPrefix(s: seq<string>, k: int)
    requires 0 <= k < |s|
    ensures Elems(s[..k + 1]) == Elems(s[..k]) + {s[k]}
  {
    assert s[..k + 1] == s[..k] + [s[k]];
  }

  /** Extending a prefix by one token counts that token once more. */
  lemma CountPrefix(s: seq<string>, k: int)
    requires 0 <= k < |s|
    ensures forall w :: Count(s[..k + 1], w) == Count(s[..k], w) + (if w == s[k] then 1 else 0)
  {
    assert s[..k + 1][..k] == s[..k];
  }

  /** A word missing from the first `i` sentences is in none of them. */
  lemma WordsPrefix(d: Document, i: int, w: string)
    requires 0 <= i <= |d| && w !in Words(d[..i])
    ensures forall j :: 0 <= j < i ==> w !in d[j]
  {
    forall j | 0 <= j < i ensures w !in d[j] {
      assert d[..i][j] == d[j];
    }
  }

  lemma NoDupAppendString(s: seq<string>, x: string)
    requires NoDup(s) && x !in Elems(s)
    ensures NoDup(s + [x]) && Elems(s + [x]) == Elems(s) + {x}
  {
    var r := s + [x];
    forall i, j | 0 <= i < j < |r| ensures r[i] != r[j] {
      assert r[i] == s[i];
    }
  }
}
