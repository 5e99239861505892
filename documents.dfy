/**
  A document as both pipelines see it: a list of sentences, each a list of
  tokens, as produced by the sentence segmenter.
 */
module Documents {
  import opened Collections

  type Sentence = seq<string>
  type Document = seq<Sentence>

  /** The words occurring in some sentence of `d`. */
  function Words(d: Document): (ws: set<string>)
    ensures forall i, w :: 0 <= i < |d| && w in d[i] ==> w in ws
    ensures forall w :: w in ws ==> exists i :: 0 <= i < |d| && w in d[i]
  {
    set i, w | 0 <= i < |d| && w in d[i] :: w
  }

  /** Extending a prefix of the document by one sentence adds that sentence's words. */
  lemma WordsExtend(d: Document, i: int)
    requires 0 <= i < |d|
    ensures Words(d[..i + 1]) == Words(d[..i]) + Elems(d[i])
  {
    assert forall j :: 0 <= j < i ==> d[..i + 1][j] == d[..i][j];
    assert d[..i + 1][i] == d[i];
  }
}
