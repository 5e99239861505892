/**
  Document summarisation: the text is segmented and preprocessed, MEAD
  selects sentence indices, and the summary is the original sentences at
  those indices, concatenated in document order.

  The sentence segmenter (tokenised sentences, and the original sentence
  strings, of a text) is a pair of functions given to the summariser;
  Math.log10 is a parameter of `Summarize`.
 */
module Summarizer {
  import opened Collections
  import opened Documents
  import opened Preprocessing
  import opened Mead

  /** The strings concatenated. */
  function Concat(ss: seq<string>): string
  {
    if |ss| == 0 then "" else Concat(ss[..|ss| - 1]) + ss[|ss| - 1]
  }

  /** The sentences whose positions occur in `selection`, in document order, each once. */
  function Summary(sentences: seq<string>, selection: seq<int>): string
  {
    if |sentences| == 0 then ""
    else
      var n := |sentences| - 1;
      Summary(sentences[..n], selection) + (if n in selection then sentences[n] else "")
  }

  /**
    Only which in-range positions a selection holds matters: not its order,
    not repeats, not entries outside the sentence list.
   */
  lemma {:induction false} SummarySameSelection(sentences: seq<string>, s1: seq<int>, s2: seq<int>)
    requires forall i :: 0 <= i < |sentences| ==> (i in s1 <==> i in s2)
    ensures Summary(sentences, s1) == Summary(sentences, s2)
  {
    if |sentences| > 0 {
      var n := |sentences| - 1;
      SummarySameSelection(sentences[..n], s1, s2);
    }
  }

  /** A selection that holds no position of the list gives the empty summary. */
  lemma {:induction false} SummaryNone(sentences: seq<string>, selection: seq<int>)
    requires forall i :: 0 <= i < |sentences| ==> i !in selection
    ensures Summary(sentences, selection) == ""
  {
    if |sentences| > 0 {
      SummaryNone(sentences[..|sentences| - 1], selection);
    }
  }

  /** A selection that holds every position gives all the sentences. */
  lemma {:induction false} SummaryAll(sentences: seq<string>, selection: seq<int>)
    requires forall i :: 0 <= i < |sentences| ==> i in selection
    ensures Summary(sentences, selection) == Concat(sentences)
  {
    if |sentences| > 0 {
      SummaryAll(sentences[..|sentences| - 1], selection);
    }
  }

  /** The sentences at the given positions, in the given order. */
  function At(sentences: seq<string>, positions: seq<int>): (r: seq<string>)
    requires forall k :: 0 <= k < |positions| ==> 0 <= positions[k] < |sentences|
    ensures |r| == |positions|
  {
    seq(|positions|, k requires 0 <= k < |positions| => sentences[positions[k]])
  }

  /**
    For an ascending selection of positions in the list, the summary is the
    selected sentences concatenated in selection order.
   */
  lemma {:induction false} SummaryOfAscending(sentences: seq<string>, selection: seq<int>)
    requires IncreasingInts(selection)
    requires forall k :: 0 <= k < |selection| ==> 0 <= selection[k] < |sentences|
    ensures Summary(sentences, selection) == Concat(At(sentences, selection))
    decreases |sentences|
  {
    if |sentences| > 0 {
      var n := |sentences| - 1;
      var m := |selection|;
      if m > 0 && selection[m - 1] == n {
        var init := selection[..m - 1];
        DropLast(selection, n);
        SummaryOfAscending(sentences[..n], init);
        SummarySameSelection(sentences[..n], init, selection);
        AtSnoc(sentences, init);
        assert selection == init + [n];
      } else {
        BelowLast(selection, n);
        SummaryOfAscending(sentences[..n], selection);
        AtPrefix(sentences, selection);
      }
    }
  }

  /** An ascending selection ending at `n`, without its last entry, lies below `n` and agrees with it there. */
  lemma DropLast(selection: seq<int>, n: int)
    requires IncreasingInts(selection) && |selection| > 0 && selection[|selection| - 1] == n
    ensures IncreasingInts(selection[..|selection| - 1])
    ensures forall k :: 0 <= k < |selection| - 1 ==> selection[k] < n
    ensures forall i :: i < n ==> (i in selection[..|selection| - 1] <==> i in selection)
  {
    var m := |selection|;
    forall i | i < n && i in selection ensures i in selection[..m - 1] {
      var k :| 0 <= k < m && selection[k] == i;
      assert selection[..m - 1][k] == i;
    }
  }

  /** An ascending selection within `0 .. n` that does not end at `n` lies below `n`. */
  lemma BelowLast(selection: seq<int>, n: int)
    requires IncreasingInts(selection)
    requires forall k :: 0 <= k < |selection| ==> 0 <= selection[k] <= n
    requires |selection| > 0 ==> selection[|selection| - 1] != n
    ensures forall k :: 0 <= k < |selection| ==> selection[k] < n
    ensures n !in selection
  {
    var m := |selection|;
    forall k | 0 <= k < m ensures selection[k] < n {
      assert selection[k] <= selection[m - 1];
    }
  }

  /** Picking one more position, the last sentence, appends that sentence. */
  lemma AtSnoc(sentences: seq<string>, init: seq<int>)
    requires |sentences| > 0
    requires forall k :: 0 <= k < |init| ==> 0 <= init[k] < |sentences| - 1
    ensures At(sentences, init + [|sentences| - 1]) == At(sentences[..|sentences| - 1], init) + [sentences[|sentences| - 1]]
  {
  }

  /** Positions before the last sentence pick the same sentences from the list without it. */
  lemma AtPrefix(sentences: seq<string>, positions: seq<int>)
    requires |sentences| > 0
    requires forall k :: 0 <= k < |positions| ==> 0 <= positions[k] < |sentences| - 1
    ensures At(sentences, positions) == At(sentences[..|sentences| - 1], positions)
  {
  }

  class DocumentSummarizer {
    /** The sentence segmenter: the tokenised sentences of a text. */
    const segment: string -> Document
    /** The sentence segmenter: the original sentence strings of a text. */
    const originalSentences: string -> seq<string>
    const preprocessor: SentencePreprocessor
    const mead: MeadAlgorithm

    /** A summariser with its own MEAD model. */
    constructor (segment: string -> Document, originalSentences: string -> seq<string>, preprocessor: SentencePreprocessor)
      ensures this.segment == segment && this.originalSentences == originalSentences
      ensures this.preprocessor == preprocessor && fresh(mead)
    {
      this.segment := segment;
      this.originalSentences := originalSentences;
      this.preprocessor := preprocessor;
      mead := new MeadAlgorithm();
    }

    /**
      The summary of `text`: empty for an empty text, otherwise the original
      sentences MEAD selects, in document order. Fails as MEAD does: on a
      text with no sentence, or a percentage asking for more sentences than
      there are.
     */
    method Summarize(text: string, percentage: int, log10: real -> real)
      returns (r: Result<string>, ghost selection: seq<int>,
               ghost centroidOrder: seq<int>, ghost maxCentroid: real, ghost scoreOrder: seq<int>)
      modifies mead
      ensures |text| == 0 ==> r == Ok("")
      ensures |text| > 0 ==>
        var d := Processed(segment(text), preprocessor.stopwords);
        var n := |d|;
        && mead.Built(d)
        && (r.Err? <==> n == 0 || SummaryLength(n, percentage) > n)
        && (r.Err? ==> r.error == if n == 0 then NoSuchElement else IndexOutOfBounds)
        && (r.Ok? ==>
              && r.value == Summary(originalSentences(text), selection)
              && IncreasingInts(selection)
              && |selection| == SummaryLength(n, percentage)
              && (forall k :: 0 <= k < |selection| ==> 0 <= selection[k] < n)
              && MeadSelection(d, mead.terms, percentage, log10, selection, centroidOrder, maxCentroid, scoreOrder))
    {
      if |text| > 0 {
        var sentences := segment(text);
        var preprocessed := preprocessor.Process(sentences);
        var chosen;
        chosen, centroidOrder, maxCentroid, scoreOrder := mead.GetSelection(preprocessed, percentage, log10);
        if chosen.Err? {
          return Err(chosen.error), [], centroidOrder, maxCentroid, scoreOrder;
        }
        var original := originalSentences(text);
        var summary := BuildSummaryString(original, chosen.value);
        return Ok(summary), chosen.value, centroidOrder, maxCentroid, scoreOrder;
      }
      return Ok(""), [], [], 0.0, [];
    }

    /** The sentences at the selected positions, in document order. */
    method BuildSummaryString(sentences: seq<string>, selection: seq<int>) returns (summary: string)
      ensures summary == Summary(sentences, selection)
    {
      summary := "";
      for i := 0 to |sentences|
        invariant summary == Summary(sentences[..i], selection)
      {
        assert sentences[..i + 1][..i] == sentences[..i];
        if i in selection {
          summary := summary + sentences[i];
        }
      }
      assert sentences[..|sentences|] == sentences;
    }
  }
}
