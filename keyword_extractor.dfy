/**
  Keyword extraction: the sentences are segmented and preprocessed, HITS
  ranks every word of the vocabulary, and the first twenty ranked words are
  joined with ", ".

  The sentence segmenter is a function given to the extractor; Math.sqrt
  and the division of the HITS normalisation are parameters of `Extract`.
 */
module Keywords {
  import opened Collections
  import opened Documents
  import opened Preprocessing
  import HITS

  /** The separator between keywords. */
  const Separator: string := ", "

  /** The number of keywords `extract` asks for. */
  const KeywordLimit: int := 20

  /** The words joined with ", ": nothing before the first, nothing after the last. */
  function Join(ws: seq<string>): string
  {
    if |ws| == 0 then ""
    else if |ws| == 1 then ws[0]
    else ws[0] + Separator + Join(ws[1..])
  }

  /** The number of keywords taken from `n` when `k` are asked for: `min(k, n)`, and none when `k` is not positive. */
  function Taken(n: nat, k: int): (m: nat)
    ensures m <= n
  {
    if k < n then (if k < 0 then 0 else k) else n
  }

  /** The position of the first ", " in `s`, or -1 when there is none. */
  function Find(s: string): (r: int)
    ensures r == -1 || 0 <= r <= |s| - 2
    ensures r >= 0 ==> s[r] == ',' && s[r + 1] == ' '
  {
    if |s| < 2 then -1
    else if s[0] == ',' && s[1] == ' ' then 0
    else
      var k := Find(s[1..]);
      if k < 0 then -1 else k + 1
  }

  /** `s` cut at every ", ": the inverse of `Join` on words without a separator. */
  function Split(s: string): (r: seq<string>)
    ensures |r| >= 1
    decreases |s|
  {
    var k := Find(s);
    if k < 0 then [s] else [s[..k]] + Split(s[k + 2..])
  }

  /** The total length of the words. */
  function TotalLength(ws: seq<string>): nat
  {
    if |ws| == 0 then 0 else |ws[0]| + TotalLength(ws[1..])
  }

  /** Joining adds exactly one two-character separator between each two words. */
  lemma {:induction false} JoinLength(ws: seq<string>)
    requires |ws| >= 1
    ensures |Join(ws)| == TotalLength(ws) + 2 * (|ws| - 1)
  {
    if |ws| > 1 {
      JoinLength(ws[1..]);
    }
  }

  /** A single keyword is returned unchanged, and no keywords give the empty string. */
  lemma JoinShort(w: string)
    ensures Join([w]) == w
    ensures Join([]) == ""
  {
  }

  /** Appending a word adds a separator and the word. */
  lemma {:induction false} JoinSnoc(ws: seq<string>, w: string)
    requires |ws| >= 1
    ensures Join(ws + [w]) == Join(ws) + Separator + w
  {
    if |ws| == 1 {
      assert (ws + [w])[1..] == [w];
    } else {
      assert (ws + [w])[1..] == ws[1..] + [w];
      JoinSnoc(ws[1..], w);
    }
  }

  /** A word without ", " followed by a separator: the first separator is the one after the word. */
  lemma {:induction false} FindAfterWord(w: string, rest: string)
    requires Find(w) == -1
    ensures Find(w + Separator + rest) == |w|
  {
    var s := w + Separator + rest;
    if |w| > 0 {
      assert s[1..] == w[1..] + Separator + rest;
      if |w| >= 2 {
        assert Find(w[1..]) == -1;
      }
      FindAfterWord(w[1..], rest);
    }
  }

  /** Splitting a joined list of words that hold no separator gives the words back. */
  lemma {:induction false} SplitJoin(ws: seq<string>)
    requires |ws| >= 1
    requires forall i :: 0 <= i < |ws| ==> Find(ws[i]) == -1
    ensures Split(Join(ws)) == ws
  {
    if |ws| > 1 {
      var rest := Join(ws[1..]);
      var s := ws[0] + Separator + rest;
      assert Join(ws) == s;
      FindAfterWord(ws[0], rest);
      var k := |ws[0]|;
      assert s[..k] == ws[0] && s[k + 2..] == rest;
      assert Split(s) == [ws[0]] + Split(rest);
      SplitJoin(ws[1..]);
      assert ws == [ws[0]] + ws[1..];
    }
  }

  /** The first `min(k, |keywords|)` keywords joined with ", ". */
  method MakeKeywordString(keywords: seq<string>, k: int) returns (joined: string)
    ensures joined == Join(keywords[..Taken(|keywords|, k)])
    ensures k <= 0 || |keywords| == 0 ==> joined == ""
  {
    var max := |keywords|;
    if k < max {
      max := k;
    }
    joined := "";
    var i := 0;
    while i < max
      invariant max <= |keywords| && (max < 0 || max == Taken(|keywords|, k))
      invariant 0 <= i <= max || (i == 0 && max < 0)
      invariant i == 0 ==> joined == ""
      invariant i > 0 ==> joined == Join(keywords[..i]) + (if i < max then Separator else "")
    {
      if i > 0 {
        JoinSnoc(keywords[..i], keywords[i]);
        assert keywords[..i + 1] == keywords[..i] + [keywords[i]];
      }
      joined := joined + keywords[i];
      if i < max - 1 {
        joined := joined + Separator;
      }
      i := i + 1;
    }
  }

  /** Extracts keywords from text: segmenting, preprocessing, ranking, joining. */
  class KeywordExtractor {
    /** The sentence segmenter: text to tokenised sentences. */
    const segment: string -> Document
    const preprocessor: SentencePreprocessor

    constructor (segment: string -> Document, preprocessor: SentencePreprocessor)
      ensures this.segment == segment && this.preprocessor == preprocessor
    {
      this.segment := segment;
      this.preprocessor := preprocessor;
    }

    /**
      The first twenty keywords, joined with ", ". The ghost results are the
      full ranked keyword list, every word of the preprocessed text once, and
      the HITS ranking it is read from.
     */
    method Extract(text: string, sqrt: real -> real, div: (real, real) -> real)
      returns (r: string, ghost keywords: seq<string>,
               ghost wordList: seq<string>, ghost incoming: seq<seq<int>>, ghost order: seq<int>)
      ensures NoDup(keywords) && Elems(keywords) == Words(Processed(segment(text), preprocessor.stopwords))
      ensures HITS.RankedKeywords(Processed(segment(text), preprocessor.stopwords), keywords, wordList, incoming, order, sqrt, div)
      ensures r == Join(keywords[..Taken(|keywords|, KeywordLimit)])
    {
      var sentences := segment(text);
      var processed := preprocessor.Process(sentences);
      var ranked;
      ranked, wordList, incoming, order := HITS.GetKeywords(processed, sqrt, div);
      keywords := ranked;
      r := MakeKeywordString(ranked, KeywordLimit);
    }
  }
}
