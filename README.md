# Document summarizer: a Dafny model of its two ranking pipelines

This project models the core of a Java desktop tool. The tool summarises a
text and extracts its keywords. Both features start from a document that the
sentence segmenter has split into sentences, each a list of tokens.

- **Preprocessing** (`SentencePreprocessor`) lower-cases every token, then
  drops the tokens that hold no ASCII letter or digit, then drops the
  stopwords. Each stage builds a fresh document with as many sentences as it
  was given.
- **Summarisation** (`MeadAlgorithm`, `DocumentSummarizer`) follows MEAD
  centroid-based summarisation. Every sentence plays the part of a document of
  the collection. MEAD builds three things:
  - a document-frequency table;
  - a sorted vocabulary;
  - the average count of every word per sentence.

  From these it weighs each word by its average count times
  log10(N / document frequency). The top tenth of the words forms a centroid
  pseudo-document. A sentence scores the sum of three terms:
  - its centroid value;
  - its positional value;
  - its overlap with the first sentence.

  The best `percentage` percent of the sentences are returned in document
  order. The summary concatenates the original sentences at those positions.
- **Keyword extraction** (`HITSAlgorithm`, `HITSNode`, `KeywordExtractor`)
  works as follows:
  - It builds a directed co-occurrence graph over the sorted word list. There
    is an edge from each token to the one that directly follows it.
  - It runs ten rounds of HITS hub/authority updates.
  - It ranks the words by the mean of the two scores and joins the first
    twenty with `", "`.
- **`IndexValuePair`** is the comparator both rankings use. A stable ascending
  sort followed by a reverse puts higher values first. Among equal values, the
  later position comes first.

The model follows the code, including the defect in `HITSNode.getOutgoing`:
it returns the incoming list. So the hub step of HITS, like the authority
step, sums over incoming edges. The model keeps this behaviour
(`HITSNodes.HITSNode.GetOutgoing`, `HITS.HubUpdate`), and
`HITSNodes.HITSNode.GetOutgoingMissesEdges` states its consequence.

Modelling choices:

- **Collections.** Java lists are `seq`s and maps are `map`s.
  - The classes whose fields the source updates in place are Dafny classes:
    `MeadAlgorithm`, `HITSNode` and `SentencePreprocessor`.
  - The HITS score arrays are `array<real>`.
  - Scores are `real`s.
- **Exceptions.** An exception the core can throw is a `Result` error:
  - `NoSuchElement` from `Collections.max` on an empty list;
  - `IndexOutOfBounds` from `List.get` past the end.
- **Abstract parameters.** These calls are parameters of the model, as
  functions:
  - `Math.log10`;
  - `Math.sqrt` and the division in the HITS normalisation;
  - the sentence segmenter: tokenised sentences, and the original sentence
    strings, of a text.
- **Stopwords.** The stopword list is given to the `SentencePreprocessor`
  constructor.

## Model

| member | source | states |
|---|---|---|
| IndexValuePairs.CompareTo | DocumentSummarizer/src/docsum/algorithm/IndexValuePair.java:15-17 | negative, zero or positive exactly when this value is below, equal to or above the other |
| IndexValuePairs.CompareToIgnoresIndex | DocumentSummarizer/src/docsum/algorithm/IndexValuePair.java:15-17 | two pairs with the same value compare alike against any third pair; the index never matters |
| IndexValuePairs.CompareToAntisymmetric | DocumentSummarizer/src/docsum/algorithm/IndexValuePair.java:16 | comparing the other way round negates the result |
| IndexValuePairs.CompareToTotalPreorder | DocumentSummarizer/src/docsum/algorithm/IndexValuePair.java:15-17 | "compares at most zero" is total and transitive |
| IndexValuePairs.Sort | DocumentSummarizer/src/docsum/algorithm/MeadAlgorithm.java:93 | the stable sort of an index-ordered list: the same pairs, ascending by value, equal values kept in index order |
| IndexValuePairs.Reverse | DocumentSummarizer/src/docsum/algorithm/MeadAlgorithm.java:94 | position k of the result holds position n-1-k of the input |
| IndexValuePairs.ReversePermutes | DocumentSummarizer/src/docsum/algorithm/MeadAlgorithm.java:94 | a reversed list holds the same pairs |
| IndexValuePairs.SortThenReverse | DocumentSummarizer/src/docsum/algorithm/HITSAlgorithm.java:189-190 | sort then reverse gives the same pairs with values non-increasing and equal values in descending index order |
| IndexValuePairs.DescendingUnique | DocumentSummarizer/src/docsum/algorithm/HITSAlgorithm.java:189-190 | two such descending lists of the same pairs are equal, so ties never leave the outcome open |
| IndexValuePairs.DescendingRanks | DocumentSummarizer/src/docsum/algorithm/MeadAlgorithm.java:93-94 | the indices read off the sorted-and-reversed pairs rank the scores: each position once, higher value first, ties to the later position |
| IndexValuePairs.RankedByUnique | DocumentSummarizer/src/docsum/algorithm/HITSAlgorithm.java:189-194 | two rankings of the same values are equal, so the sort and reverse leave no freedom in the order |
| IndexValuePairs.PairUp | DocumentSummarizer/src/docsum/algorithm/MeadAlgorithm.java:325-331 | pair k holds position k and value k, in index order |
| Collections.SortStrings | DocumentSummarizer/src/docsum/algorithm/HITSAlgorithm.java:58 | `Collections.sort` on strings: a permutation of the input, ascending in `String.compareTo` order |
| Collections.SortedPermutationStrict | DocumentSummarizer/src/docsum/algorithm/HITSAlgorithm.java:47-61 | sorting a duplicate-free list gives a strictly ascending list of the same words |
| Collections.StrictlySortedUnique | DocumentSummarizer/src/docsum/algorithm/MeadAlgorithm.java:257-265 | a strictly ascending word list is determined by its set of words |
| Collections.SortInts | DocumentSummarizer/src/docsum/algorithm/MeadAlgorithm.java:103 | `Collections.sort` on integers: a permutation of the input in non-decreasing order |
| Collections.SortedIntsPermutation | DocumentSummarizer/src/docsum/algorithm/MeadAlgorithm.java:103 | sorting distinct indices gives a strictly increasing list of the same indices |
| Collections.Count | DocumentSummarizer/src/docsum/algorithm/MeadAlgorithm.java:150 | `Collections.frequency`: at most the list length, and positive exactly when the word occurs |
| Collections.IndexOf | DocumentSummarizer/src/docsum/algorithm/HITSAlgorithm.java:92-93 | `indexOf`: -1 exactly when absent, otherwise the first position holding the word |
| Collections.Max | DocumentSummarizer/src/docsum/algorithm/MeadAlgorithm.java:52 | `Collections.max`: fails exactly on an empty list, otherwise an element of the list no smaller than any other |
| HITSNodes.HITSNode.constructor | DocumentSummarizer/src/docsum/algorithm/HITSNode.java:21-24 | a new node has empty incoming and outgoing lists |
| HITSNodes.HITSNode.AddIncoming | DocumentSummarizer/src/docsum/algorithm/HITSNode.java:32-36 | the value is appended exactly when absent; afterwards it is present, the list stays duplicate-free and the outgoing list is untouched |
| HITSNodes.HITSNode.AddOutgoing | DocumentSummarizer/src/docsum/algorithm/HITSNode.java:44-48 | the same for the outgoing list, leaving the incoming list untouched |
| HITSNodes.AddEdgeKeepsNoDup | DocumentSummarizer/src/docsum/algorithm/HITSNode.java:32-48 | an add keeps a list duplicate-free, leaves the value in it and adds exactly that value to its elements |
| HITSNodes.AddEdgeIdempotent | DocumentSummarizer/src/docsum/algorithm/HITSNode.java:32-48 | repeating an add changes nothing |
| HITSNodes.HITSNode.GetIncoming | DocumentSummarizer/src/docsum/algorithm/HITSNode.java:55-57 | returns the incoming list |
| HITSNodes.HITSNode.GetOutgoing | DocumentSummarizer/src/docsum/algorithm/HITSNode.java:64-66 | returns the incoming list, as the source does |
| HITSNodes.HITSNode.GetOutgoingMissesEdges | DocumentSummarizer/src/docsum/algorithm/HITSNode.java:64-66 | a node with outgoing edges but no incoming edge reports an empty outgoing list |
| HITS.MakeWordList | DocumentSummarizer/src/docsum/algorithm/HITSAlgorithm.java:47-61 | strictly ascending (sorted, no duplicates), with exactly the words of the sentences as elements |
| HITS.MakeNodes | DocumentSummarizer/src/docsum/algorithm/HITSAlgorithm.java:81-83 | keys exactly 0..n-1, each a fresh node of its own without edges |
| HITS.MakeGraph | DocumentSummarizer/src/docsum/algorithm/HITSAlgorithm.java:72-105 | a fresh node per word index; each node's lists hold, without duplicates, exactly its successors and predecessors under the adjacent-token edges |
| HITS.AddSentenceEdges | DocumentSummarizer/src/docsum/algorithm/HITSAlgorithm.java:86-101 | the lists gain exactly the edges of the sentence's adjacent token pairs |
| HITS.AddPairEdge | DocumentSummarizer/src/docsum/algorithm/HITSAlgorithm.java:87-100 | the lists gain exactly the edge from token i to token i+1 |
| HITS.AddEdgeToGraph | DocumentSummarizer/src/docsum/algorithm/HITSAlgorithm.java:99-100 | node c gains the outgoing edge to n and node n the incoming edge from c; every other list is unchanged |
| HITS.MapsAdd | DocumentSummarizer/src/docsum/algorithm/HITSAlgorithm.java:99-100 | after those two adds, every node's lists match the edge set extended by (c, n) |
| HITS.SentenceEdgesSpec | DocumentSummarizer/src/docsum/algorithm/HITSAlgorithm.java:86-93 | a sentence's edges are exactly the (indexOf current, indexOf next) pairs of its adjacent tokens |
| HITS.DocEdgesSpec | DocumentSummarizer/src/docsum/algorithm/HITSAlgorithm.java:85-101 | the graph's edges are exactly the adjacent-token edges of some sentence; no other edge is added |
| HITS.ShortSentenceNoEdges | DocumentSummarizer/src/docsum/algorithm/HITSAlgorithm.java:86 | a sentence of zero or one tokens adds no edge |
| HITS.EdgeListsConsistent | DocumentSummarizer/src/docsum/algorithm/HITSAlgorithm.java:99-100 | j is an outgoing edge of i exactly when i is an incoming edge of j, exactly when (i, j) is an edge |
| HITS.EdgesInRange | DocumentSummarizer/src/docsum/algorithm/HITSAlgorithm.java:92-93 | when every token is in the word list, every edge joins two word-list indices |
| HITS.EdgeListsInRange | DocumentSummarizer/src/docsum/algorithm/HITSAlgorithm.java:99-100 | every index stored in an edge list is below the word count |
| HITS.SumScores | DocumentSummarizer/src/docsum/algorithm/HITSAlgorithm.java:138-141 | the sum of the scores at the listed positions, added in list order |
| HITS.SumAtEmpty | DocumentSummarizer/src/docsum/algorithm/HITSAlgorithm.java:138-143 | a node without incoming edges gets authority 0 before normalisation |
| HITS.SumAtNonNegative | DocumentSummarizer/src/docsum/algorithm/HITSAlgorithm.java:138-141 | sums of non-negative scores are non-negative |
| HITS.SumAtPermutation | DocumentSummarizer/src/docsum/algorithm/HITSAlgorithm.java:138-141 | the sum over a node's list depends only on the multiset of its positions, not their order |
| HITS.AuthorityUpdate | DocumentSummarizer/src/docsum/algorithm/HITSAlgorithm.java:134-145 | each authority becomes the sum of hub scores over its incoming list; hub scores are untouched; `norm` is the sum of squares |
| HITS.HubUpdate | DocumentSummarizer/src/docsum/algorithm/HITSAlgorithm.java:157-168 | each hub score becomes the sum of authority scores over its `getOutgoing` list; `norm` is the sum of squares |
| HITS.Normalize | DocumentSummarizer/src/docsum/algorithm/HITSAlgorithm.java:147-151 | every score is divided by the square root of `norm` |
| HITS.Combined | DocumentSummarizer/src/docsum/algorithm/HITSAlgorithm.java:183-185 | each node's final score is the mean of its authority and hub scores |
| HITS.RankNodes | DocumentSummarizer/src/docsum/algorithm/HITSAlgorithm.java:177-197 | a permutation of the node indices, non-increasing in combined score, ties in descending index order |
| HITS.Round | DocumentSummarizer/src/docsum/algorithm/HITSAlgorithm.java:130-174 | one pass turns the scores after i rounds into the scores after i + 1 rounds: authority sums over the incoming lists, normalised, then hub sums over the `getOutgoing` lists, normalised |
| HITS.RunRounds | DocumentSummarizer/src/docsum/algorithm/HITSAlgorithm.java:128-175 | from the state after 0 rounds, the loop leaves the arrays in the state after max(k, 0) rounds, one pass per round |
| HITS.ScoresAfterRounds | DocumentSummarizer/src/docsum/algorithm/HITSAlgorithm.java:116-175 | two fresh arrays, one score per node, holding the scores after k rounds from all-ones scores |
| HITS.UnreachedAuthority | DocumentSummarizer/src/docsum/algorithm/HITSAlgorithm.java:134-151 | a node without incoming edges gets authority 0 divided by the norm in every round |
| HITS.RoundsPermutation | DocumentSummarizer/src/docsum/algorithm/HITSAlgorithm.java:128-175 | the scores after k rounds are the same for any order of each node's incoming and outgoing lists |
| HITS.HubNormVanishes | DocumentSummarizer/src/docsum/algorithm/HITSAlgorithm.java:159-171 | for the one-edge graph of "cat sat", the first round's hub sums are all 0, so the hub `norm` is 0 and every hub score is `0 / sqrt(0)` |
| HITS.FinalScoresOf | DocumentSummarizer/src/docsum/algorithm/HITSAlgorithm.java:177-185 | the graph's final scores are the means of its authority and hub scores after max(k, 0) rounds over its getter lists |
| HITS.RunHITS | DocumentSummarizer/src/docsum/algorithm/HITSAlgorithm.java:114-198 | the result ranks every node once by its mean authority and hub score after k rounds over the graph's lists, higher first, ties to the later index |
| HITS.MakeKeywordList | DocumentSummarizer/src/docsum/algorithm/HITSAlgorithm.java:207-215 | keyword t is the word at ranked index t, with as many keywords as indices |
| HITS.GraphIncomingLists | DocumentSummarizer/src/docsum/algorithm/HITSNode.java:55-66 | in a built graph both getters return, without duplicates, exactly the words that directly precede the node's word |
| HITS.GetKeywords | DocumentSummarizer/src/docsum/algorithm/HITSAlgorithm.java:31-39 | every word of the sentences exactly once, untruncated; keyword t is the word at rank t of the ten-round HITS ranking over the adjacent-token graph |
| HITS.RankedKeywordsUnique | DocumentSummarizer/src/docsum/algorithm/HITSAlgorithm.java:31-39 | the keywords are determined by the sentences: two outcomes that meet RankedKeywords are equal, whatever order the graph lists each node's sources in |
| HITS.PermutedWords | DocumentSummarizer/src/docsum/algorithm/HITSAlgorithm.java:31-39 | reading a sorted word list through a permutation of its positions gives each word exactly once |
| Mead.ContainingSpec | DocumentSummarizer/src/docsum/algorithm/MeadAlgorithm.java:236-252 | a word's list holds exactly the sentences containing it, each once, ascending |
| Mead.DocumentFrequencyBounds | DocumentSummarizer/src/docsum/algorithm/MeadAlgorithm.java:236-252 | a word of the document lies in between one and all sentences |
| Mead.Occurrences | DocumentSummarizer/src/docsum/algorithm/MeadAlgorithm.java:276-285 | a word's total count is positive exactly when some sentence holds it |
| Mead.MeadAlgorithm.constructor | DocumentSummarizer/src/docsum/algorithm/MeadAlgorithm.java:30-32 | the model starts out empty where the source leaves the fields null; `GetSelection` resets them through `InitModel` before any read |
| Mead.MeadAlgorithm.InitModel | DocumentSummarizer/src/docsum/algorithm/MeadAlgorithm.java:37-41 | the three model fields are reset to empty |
| Mead.MeadAlgorithm.BuildModel | DocumentSummarizer/src/docsum/algorithm/MeadAlgorithm.java:68-72 | the frequency table, vocabulary and averages all describe the sentences |
| Mead.MeadAlgorithm.MakeDocFrequencies | DocumentSummarizer/src/docsum/algorithm/MeadAlgorithm.java:236-252 | keys are exactly the words of the sentences; each list is the ascending list of sentences containing the word; the other fields are unchanged |
| Mead.MeadAlgorithm.AddSentenceFrequencies | DocumentSummarizer/src/docsum/algorithm/MeadAlgorithm.java:239-250 | one sentence more is recorded: keys and lists describe the first i+1 sentences |
| Mead.RecordSentence | DocumentSummarizer/src/docsum/algorithm/MeadAlgorithm.java:240-249 | the word gets a new list [i], or i appended once; every other entry is kept |
| Mead.MeadAlgorithm.MakeTerms | DocumentSummarizer/src/docsum/algorithm/MeadAlgorithm.java:257-265 | `terms` is strictly ascending and has exactly the keys of the frequency table as elements |
| Mead.MeadAlgorithm.MakeAverageTermFrequencies | DocumentSummarizer/src/docsum/algorithm/MeadAlgorithm.java:272-292 | keys are exactly the words; each value is the word's total occurrences divided by the number of sentences |
| Mead.MeadAlgorithm.AddSentenceCounts | DocumentSummarizer/src/docsum/algorithm/MeadAlgorithm.java:276-284 | counts describe the occurrences in the first i+1 sentences |
| Mead.CountToken | DocumentSummarizer/src/docsum/algorithm/MeadAlgorithm.java:278-283 | one more for the token, starting from 1 when new; every other count is kept |
| Mead.MeadAlgorithm.DivideCounts | DocumentSummarizer/src/docsum/algorithm/MeadAlgorithm.java:288-291 | same keys, each value divided by the number of sentences |
| Mead.AverageCountPositive | DocumentSummarizer/src/docsum/algorithm/MeadAlgorithm.java:272-292 | every word of the document has a positive average count |
| Mead.MeadAlgorithm.MakeCentroidValues | DocumentSummarizer/src/docsum/algorithm/MeadAlgorithm.java:300-311 | one value per vocabulary word: average count times log10(N / document frequency) |
| Mead.CentroidSizeBounds | DocumentSummarizer/src/docsum/algorithm/MeadAlgorithm.java:339-345 | the centroid size is 0 for no terms, otherwise between 1 and V, and a tenth of V unless raised to 1 |
| Mead.MeadAlgorithm.MakeCentroidDocument | DocumentSummarizer/src/docsum/algorithm/MeadAlgorithm.java:320-353 | the centroid holds the CentroidSize top-ranked words, highest weight first, equal weights with the later word first |
| Mead.TopTerms | DocumentSummarizer/src/docsum/algorithm/MeadAlgorithm.java:347-350 | the words of the first `topTerms` ranked pairs, in rank order |
| Mead.MeadAlgorithm.MakeDocumentCentroids | DocumentSummarizer/src/docsum/algorithm/MeadAlgorithm.java:210-229 | each sentence's value is the sum of the weights of the centroid words it contains |
| Mead.CentroidSumByPresence | DocumentSummarizer/src/docsum/algorithm/MeadAlgorithm.java:219-222 | only which words a sentence contains matters, not how often |
| Mead.CentroidSumDisjoint | DocumentSummarizer/src/docsum/algorithm/MeadAlgorithm.java:219-222 | a sentence without centroid words has centroid value 0 |
| Mead.CentroidSumNonNegative | DocumentSummarizer/src/docsum/algorithm/MeadAlgorithm.java:216-225 | with non-negative weights, centroid values are non-negative |
| Mead.MeadAlgorithm.MakeSentenceVectors | DocumentSummarizer/src/docsum/algorithm/MeadAlgorithm.java:138-157 | one vector per sentence, one entry per term; entry j counts term j in the sentence |
| Mead.MeadAlgorithm.MakeFirstSentenceOverlaps | DocumentSummarizer/src/docsum/algorithm/MeadAlgorithm.java:166-182 | fails exactly when there is no vector or a vector is longer than the first; otherwise entry i is the dot product of vector i with vector 0 |
| Mead.Overlap | DocumentSummarizer/src/docsum/algorithm/MeadAlgorithm.java:171-176 | the dot product with the first vector, failing exactly when the vector is the longer one |
| Mead.DotSelf | DocumentSummarizer/src/docsum/algorithm/MeadAlgorithm.java:174-176 | the first sentence's overlap with itself is its sum of squares |
| Mead.DotNonNegative | DocumentSummarizer/src/docsum/algorithm/MeadAlgorithm.java:174-176 | overlaps of count vectors are never negative |
| Mead.MeadAlgorithm.MakePositionalValues | DocumentSummarizer/src/docsum/algorithm/MeadAlgorithm.java:191-200 | entry i is (N - i) / N times the maximum centroid value |
| Mead.PositionalDecreasing | DocumentSummarizer/src/docsum/algorithm/MeadAlgorithm.java:195 | the first sentence gets exactly the maximum; later ones get strictly less but more than 0 |
| Mead.MeadAlgorithm.MakeSentenceScores | DocumentSummarizer/src/docsum/algorithm/MeadAlgorithm.java:116-129 | pair i holds index i and centroid + positional + overlap of sentence i |
| Mead.SummaryLengthFits | DocumentSummarizer/src/docsum/algorithm/MeadAlgorithm.java:86-90 | for at least one sentence and at most 100 percent the length never exceeds N |
| Mead.SummaryLengthOverflows | DocumentSummarizer/src/docsum/algorithm/MeadAlgorithm.java:86-99 | 200 percent of one sentence asks for two, past the end of the list |
| Mead.MeadAlgorithm.MakeSummarySelection | DocumentSummarizer/src/docsum/algorithm/MeadAlgorithm.java:82-106 | fails with IndexOutOfBounds exactly when the length exceeds N; otherwise the first `length` positions of the score ranking, in ascending order |
| Mead.TopIndices | DocumentSummarizer/src/docsum/algorithm/MeadAlgorithm.java:97-100 | the indices of the first n ranked pairs, in rank order |
| Mead.RankedPrefixIsTop | DocumentSummarizer/src/docsum/algorithm/MeadAlgorithm.java:93-100 | every position in the ranked prefix beats every later one: higher score, or equal score and later position |
| Mead.SelectionIsTop | DocumentSummarizer/src/docsum/algorithm/MeadAlgorithm.java:93-103 | every selected sentence beats every unselected one: higher score, or equal score and later position |
| Mead.SelectedInRange | DocumentSummarizer/src/docsum/algorithm/MeadAlgorithm.java:97-103 | selected positions are sentence positions |
| Mead.MeadAlgorithm.CentroidScores | DocumentSummarizer/src/docsum/algorithm/MeadAlgorithm.java:49-51 | the centroid value of every sentence for the ranked centroid of the model's vocabulary |
| Mead.MeadAlgorithm.SelectSentences | DocumentSummarizer/src/docsum/algorithm/MeadAlgorithm.java:53-57 | fails exactly when the length exceeds N, and then with IndexOutOfBounds (the `sentenceScores.get` past the end); otherwise ascending, in range, of that length, and the top of the score ranking |
| Mead.MeadAlgorithm.GetSelection | DocumentSummarizer/src/docsum/algorithm/MeadAlgorithm.java:44-60 | NoSuchElement for no sentences; for some, fails exactly when the length exceeds N, and then with IndexOutOfBounds; otherwise the top `length` sentences by centroid + positional + overlap score, ascending and in range |
| Preprocessing.ToLowerIdempotent | DocumentSummarizer/src/docsum/summarizer/SentencePreprocessor.java:116 | a lower-cased token has no upper-case letter and lower-casing it again changes nothing |
| Preprocessing.ToLowerKeepsAlnum | DocumentSummarizer/src/docsum/summarizer/SentencePreprocessor.java:116 | the ASCII lower-casing of the model (see Preprocessing.ToLower under Left out) neither creates nor removes ASCII letters and digits; Java's full Unicode `toLowerCase` can create them (U+212A KELVIN SIGN becomes `k`) |
| Preprocessing.FilterMembership | DocumentSummarizer/src/docsum/summarizer/SentencePreprocessor.java:55-59 | a token survives a filter exactly when it is in the input and passes the test |
| Preprocessing.FilterSubsequence | DocumentSummarizer/src/docsum/summarizer/SentencePreprocessor.java:55-59 | a filter's output is a subsequence of its input, order kept |
| Preprocessing.FilterIdempotent | DocumentSummarizer/src/docsum/summarizer/SentencePreprocessor.java:55-59 | filtering twice is filtering once |
| Preprocessing.FilterKeeps | DocumentSummarizer/src/docsum/summarizer/SentencePreprocessor.java:87-92 | every surviving token passes the test |
| Preprocessing.Processed | DocumentSummarizer/src/docsum/summarizer/SentencePreprocessor.java:37-39 | preprocessing keeps the number of sentences |
| Preprocessing.ProcessedTokens | DocumentSummarizer/src/docsum/summarizer/SentencePreprocessor.java:37-39 | after preprocessing, every token is no stopword, holds a letter or digit, is lower-case, and is a lower-cased token of the same input sentence |
| Preprocessing.StopwordsIdempotent | DocumentSummarizer/src/docsum/summarizer/SentencePreprocessor.java:47-65 | removing the stopwords twice equals removing them once |
| Preprocessing.SentencePreprocessor.constructor | DocumentSummarizer/src/docsum/summarizer/SentencePreprocessor.java:26-28 | the preprocessor holds the given stopword list |
| Preprocessing.SentencePreprocessor.Process | DocumentSummarizer/src/docsum/summarizer/SentencePreprocessor.java:37-39 | lower-casing, then punctuation removal, then stopword removal |
| Preprocessing.SentencePreprocessor.RemoveStopwords | DocumentSummarizer/src/docsum/summarizer/SentencePreprocessor.java:47-65 | every sentence keeps, in order, exactly its tokens that are not stopwords; emptied sentences stay |
| Preprocessing.SentencePreprocessor.RemovePunctuation | DocumentSummarizer/src/docsum/summarizer/SentencePreprocessor.java:73-99 | every sentence keeps, in order, exactly its tokens holding a character of [A-Za-z0-9] |
| Preprocessing.SentencePreprocessor.MakeLowercase | DocumentSummarizer/src/docsum/summarizer/SentencePreprocessor.java:107-124 | same shape, token j of sentence i lower-cased |
| Summarizer.SummarySameSelection | DocumentSummarizer/src/docsum/summarizer/DocumentSummarizer.java:71-75 | only which in-range positions a selection holds matters: not their order, repeats or out-of-range entries |
| Summarizer.SummaryNone | DocumentSummarizer/src/docsum/summarizer/DocumentSummarizer.java:71-77 | a selection without in-range positions gives the empty string |
| Summarizer.SummaryAll | DocumentSummarizer/src/docsum/summarizer/DocumentSummarizer.java:71-75 | a selection of every position gives all sentences concatenated |
| Summarizer.SummaryOfAscending | DocumentSummarizer/src/docsum/summarizer/DocumentSummarizer.java:71-75 | for an ascending in-range selection, the summary is the selected sentences concatenated in selection order |
| Summarizer.DocumentSummarizer.constructor | DocumentSummarizer/src/docsum/summarizer/DocumentSummarizer.java:26-31 | keeps the segmenter and preprocessor and creates its own MEAD model |
| Summarizer.DocumentSummarizer.Summarize | DocumentSummarizer/src/docsum/summarizer/DocumentSummarizer.java:40-55 | "" for an empty text; otherwise fails exactly as MEAD does, with NoSuchElement when preprocessing leaves no sentence and IndexOutOfBounds when the length exceeds the sentence count, or returns the original sentences at MEAD's selection for the preprocessed sentences: the top of its score ranking, ascending |
| Summarizer.DocumentSummarizer.BuildSummaryString | DocumentSummarizer/src/docsum/summarizer/DocumentSummarizer.java:66-78 | the sentences whose positions are selected, in document order, each once |
| Keywords.MakeKeywordString | DocumentSummarizer/src/docsum/summarizer/KeywordExtractor.java:55-72 | the first min(k, n) keywords joined with ", "; "" for k <= 0 or no keywords |
| Keywords.JoinLength | DocumentSummarizer/src/docsum/summarizer/KeywordExtractor.java:65-69 | m joined keywords carry exactly m-1 two-character separators |
| Keywords.JoinShort | DocumentSummarizer/src/docsum/summarizer/KeywordExtractor.java:65-69 | a single keyword is returned unchanged, none gives "" |
| Keywords.SplitJoin | DocumentSummarizer/src/docsum/summarizer/KeywordExtractor.java:65-69 | splitting the result on ", " recovers the keywords when none contains ", " |
| Keywords.KeywordExtractor.constructor | DocumentSummarizer/src/docsum/summarizer/KeywordExtractor.java:25-30 | keeps the segmenter and preprocessor |
| Keywords.KeywordExtractor.Extract | DocumentSummarizer/src/docsum/summarizer/KeywordExtractor.java:38-45 | the first twenty ranked keywords joined with ", "; the ranked list holds each preprocessed word once, in the HITS ranking of `getKeywords` |

## Left out

- Sentence segmentation (`SentenceSegmenter`, a wrapper over Stanford CoreNLP) is not part of this model. It enters as function parameters.
- `SentencePreprocessor.readStopwords` reads a classpath resource. It is replaced by the constructor parameter.
- The Swing interface (`GraphicalInterface`) is not part of this model. Neither are the behaviour-free interfaces `SummarizationAlgorithm` and `KeywordAlgorithm`.
- Mead.MeadAlgorithm.MakeCentroidValues: `Math.log10` is a function parameter, so nothing is stated about the sign or size of the weights.
- HITS.Normalize: `Math.sqrt` and the division are function parameters, so the NaN that 0/0 produces is not modelled, and neither is the way `Double.compare` ranks NaN. This is not a corner case. `getOutgoing` returns the incoming list (HITSNode.java:65), so the hub step (HITSAlgorithm.java:159-171) also sums over predecessors, and every half-round moves the scores one edge forward. In the first half-round that finds no path of that length, every sum is 0, `norm` is 0 and every score becomes 0/0 = NaN. From then on every score stays NaN, since each norm is NaN. So every acyclic word graph whose longest path has fewer than 20 edges ends all-NaN after the 10 keyword rounds. That covers most short texts. For example, "cat sat" is NaN after the first hub step (HITS.HubNormVanishes). `Double.compare` then treats all nodes as equal, and the stable sort followed by the reverse returns the words in reverse alphabetical order. The model applies the abstract `div` instead, so for these inputs its ranking follows whatever `div(0, sqrt(0))` is.
- HITS.RunHITS: the rounds are stated over the abstract `sqrt` and division, so nothing is said about the size or sign of the normalised scores, only how they are computed from the graph.
- Collections.StringLess: `String.compareTo` compares UTF-16 code units, while the model compares Unicode scalar values. The two orders differ when a character above U+FFFF meets one in U+E000 to U+FFFF. That changes the sorted HITS word list and the MEAD vocabulary, and with them the index tie-breaks of both rankings.
- Mead.Overlap: `overlap += vector.get(j) * firstSentence.get(j)` (MeadAlgorithm.java:175) is 32-bit `int` arithmetic, which wraps for huge counts. `Mead.Dot` and `Mead.Overlap` are unbounded.
- Mead.SummaryLength: `sentenceScores.size() * percent` is unbounded here. The source's 32-bit multiplication can overflow for huge inputs.
- Mead.CentroidSize: `(int)(totalTerms * 0.1)` is modelled as `totalTerms / 10`. The two agree for every vocabulary below 2^53 words.
- Mead.MeadAlgorithm.DivideCounts: averages are exact real quotients. Rounding of the `double` / `(float)` division is left out. So is every other floating-point rounding in the scores.
- Preprocessing.ToLower: `toLowerCase` is modelled on ASCII letters only. Locale- and Unicode-specific case mapping is left out.
- Java's in-place `Collections.sort` and `Collections.reverse` are modelled as functions on sequences that return the reordered list. As a result, `makeSummarySelection` reordering its caller's `sentenceScores` list is not modelled, and nothing reads that list afterwards.
- `HashMap` iteration order (in `makeTerms` and in the averaging loop) is not modelled. Sets are walked in an arbitrary order, and every result is independent of it.
- Exceptions are `Result` values. Callers propagate them unchanged, as an uncaught exception would.
