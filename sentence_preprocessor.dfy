/**
  The preprocessing both pipelines run over segmented sentences: lower-case
  every token, drop the tokens that hold no ASCII letter or digit, and drop
  the stopwords. Each stage builds a fresh document with exactly as many
  sentences as it was given; a sentence that loses all its tokens stays, empty.

  `String.toLowerCase` is modelled on ASCII letters only. The stopword list,
  read from a classpath resource by the source, is given to the constructor.
 */
module Preprocessing {
  import opened Collections
  import opened Documents

  // ---------------------------------------------------------------------
  // Tokens
  // ---------------------------------------------------------------------

  /** An ASCII upper-case letter. */
  predicate IsUpper(c: char)
  {
    'A' <= c <= 'Z'
  }

  /** A character of the class `[A-Za-z0-9]`. */
  predicate IsAlnum(c: char)
  {
    'A' <= c <= 'Z' || 'a' <= c <= 'z' || '0' <= c <= '9'
  }

  /** The lower-case form of one character (ASCII letters only). */
  function LowerChar(c: char): char
  {
    if IsUpper(c) then (c as int + 32) as char else c
  }

  /** `w.toLowerCase()`, on ASCII letters. */
  function ToLower(w: string): (r: string)
    ensures |r| == |w|
  {
    seq(|w|, i requires 0 <= i < |w| => LowerChar(w[i]))
  }

  /** `Pattern.compile("[A-Za-z0-9]+").matcher(w).find()`: some character of `w` is a letter or digit. */
  predicate HasAlnum(w: string)
  {
    exists i :: 0 <= i < |w| && IsAlnum(w[i])
  }

  /** A lower-cased token has no upper-case letter, and lower-casing it again changes nothing. */
  lemma ToLowerIdempotent(w: string)
    ensures forall i :: 0 <= i < |w| ==> !IsUpper(ToLower(w)[i])
    ensures ToLower(ToLower(w)) == ToLower(w)
  {
  }

  /** Lower-casing neither creates nor removes letters and digits. */
  lemma ToLowerKeepsAlnum(w: string)
    ensures HasAlnum(ToLower(w)) <==> HasAlnum(w)
  {
    if HasAlnum(w) {
      var i :| 0 <= i < |w| && IsAlnum(w[i]);
      assert IsAlnum(ToLower(w)[i]);
    }
    if HasAlnum(ToLower(w)) {
      var i :| 0 <= i < |w| && IsAlnum(ToLower(w)[i]);
      assert IsAlnum(w[i]);
    }
  }

  // ---------------------------------------------------------------------
  // Keeping the tokens that pass a test
  // ---------------------------------------------------------------------

  /** The tokens of `s` that satisfy `keep`, in their original order. */
  function Filter(s: Sentence, keep: string -> bool): Sentence
  {
    if |s| == 0 then []
    else Filter(s[..|s| - 1], keep) + (if keep(s[|s| - 1]) then [s[|s| - 1]] else [])
  }

  /** `r` is `s` with some tokens left out: token `k` of `r` is token `positions[k]` of `s`. */
  predicate SubsequenceAt(r: Sentence, s: Sentence, positions: seq<int>)
  {
    && |positions| == |r|
    && IncreasingInts(positions)
    && (forall k :: 0 <= k < |r| ==> 0 <= positions[k] < |s| && r[k] == s[positions[k]])
  }

  /** A token survives the filter exactly when it occurs in the input and passes the test. */
  lemma {:induction false} FilterMembership(s: Sentence, keep: string -> bool, w: string)
    ensures w in Filter(s, keep) <==> w in s && keep(w)
  {
    if |s| > 0 {
      var n := |s| - 1;
      FilterMembership(s[..n], keep, w);
      assert s == s[..n] + [s[n]];
    }
  }

  /** The filter's output is a subsequence of its input: the positions below show where each token came from. */
  lemma {:induction false} FilterSubsequence(s: Sentence, keep: string -> bool) returns (positions: seq<int>)
    ensures SubsequenceAt(Filter(s, keep), s, positions)
  {
    if |s| == 0 {
      positions := [];
    } else {
      var n := |s| - 1;
      positions := FilterSubsequence(s[..n], keep);
      SubsequenceGrow(Filter(s[..n], keep), s, positions);
      if keep(s[n]) {
        positions := positions + [n];
      }
    }
  }

  /** A subsequence of all but the last token is one of the whole sentence, and stays one with the last token added. */
  lemma SubsequenceGrow(r: Sentence, s: Sentence, positions: seq<int>)
    requires |s| > 0 && SubsequenceAt(r, s[..|s| - 1], positions)
    ensures SubsequenceAt(r, s, positions)
    ensures SubsequenceAt(r + [s[|s| - 1]], s, positions + [|s| - 1])
  {
    var n := |s| - 1;
    assert forall k :: 0 <= k < |r| ==> s[..n][positions[k]] == s[positions[k]];
  }

  /** Filtering twice with the same test is filtering once. */
  lemma {:induction false} FilterIdempotent(s: Sentence, keep: string -> bool)
    ensures Filter(Filter(s, keep), keep) == Filter(s, keep)
  {
    if |s| > 0 {
      var n := |s| - 1;
      FilterIdempotent(s[..n], keep);
      var f := Filter(s[..n], keep);
      if keep(s[n]) {
        var g := f + [s[n]];
        assert Filter(s, keep) == g;
        assert g[..|g| - 1] == f && g[|g| - 1] == s[n];
        assert Filter(g, keep) == Filter(f, keep) + [s[n]];
      } else {
        assert Filter(s, keep) == f;
      }
    }
  }

  /** Every token left after filtering passes the test. */
  lemma FilterKeeps(s: Sentence, keep: string -> bool)
    ensures forall k :: 0 <= k < |Filter(s, keep)| ==> keep(Filter(s, keep)[k])
  {
    forall k | 0 <= k < |Filter(s, keep)| ensures keep(Filter(s, keep)[k]) {
      FilterMembership(s, keep, Filter(s, keep)[k]);
    }
  }

  // ---------------------------------------------------------------------
  // The stages, on whole documents
  // ---------------------------------------------------------------------

  /** Every token of every sentence lower-cased. */
  function Lowercased(d: Document): (r: Document)
    ensures |r| == |d|
  {
    seq(|d|, i requires 0 <= i < |d| => seq(|d[i]|, j requires 0 <= j < |d[i]| => ToLower(d[i][j])))
  }

  /** Every sentence without its tokens that hold no letter or digit. */
  function WithoutPunctuation(d: Document): (r: Document)
    ensures |r| == |d|
  {
    seq(|d|, i requires 0 <= i < |d| => Filter(d[i], HasAlnum))
  }

  /** Whether `w` is not a stopword. */
  function NotIn(stopwords: seq<string>): string -> bool
  {
    w => w !in stopwords
  }

  /** Every sentence without its stopwords. */
  function WithoutStopwords(d: Document, stopwords: seq<string>): (r: Document)
    ensures |r| == |d|
  {
    seq(|d|, i requires 0 <= i < |d| => Filter(d[i], NotIn(stopwords)))
  }

  /** The three stages in order: lower-case, then punctuation, then stopwords. */
  function Processed(d: Document, stopwords: seq<string>): (r: Document)
    ensures |r| == |d|
  {
    WithoutStopwords(WithoutPunctuation(Lowercased(d)), stopwords)
  }

  /**
    After preprocessing, every token is lower-case, holds a letter or
    digit, is not a stopword, and comes from the same sentence of the input.
   */
  lemma ProcessedTokens(d: Document, stopwords: seq<string>, i: int, j: int)
    requires 0 <= i < |d| && 0 <= j < |Processed(d, stopwords)[i]|
    ensures var w := Processed(d, stopwords)[i][j];
      && w !in stopwords
      && HasAlnum(w)
      && ToLower(w) == w
      && exists k :: 0 <= k < |d[i]| && w == ToLower(d[i][k])
  {
    var lowered := Lowercased(d)[i];
    var kept := WithoutPunctuation(Lowercased(d))[i];
    var w := Processed(d, stopwords)[i][j];
    FilterMembership(kept, NotIn(stopwords), w);
    FilterMembership(lowered, HasAlnum, w);
    var k :| 0 <= k < |lowered| && lowered[k] == w;
    ToLowerIdempotent(d[i][k]);
  }

  /** Removing the stopwords a second time changes nothing. */
  lemma StopwordsIdempotent(d: Document, stopwords: seq<string>)
    ensures WithoutStopwords(WithoutStopwords(d, stopwords), stopwords) == WithoutStopwords(d, stopwords)
  {
    forall i | 0 <= i < |d|
      ensures WithoutStopwords(WithoutStopwords(d, stopwords), stopwords)[i] == WithoutStopwords(d, stopwords)[i]
    {
      FilterIdempotent(d[i], NotIn(stopwords));
    }
  }

  // ---------------------------------------------------------------------
  // The preprocessor
  // ---------------------------------------------------------------------

  class SentencePreprocessor {
    var stopwords: seq<string>

    /** A preprocessor with the given stopword list. */
    constructor (stopwords: seq<string>)
      ensures this.stopwords == stopwords
    {
      this.stopwords := stopwords;
    }

    /** Lower-case, then remove punctuation, then remove stopwords. */
    method Process(document: Document) returns (processed: Document)
      ensures processed == Processed(document, stopwords)
    {
      var lowered := MakeLowercase(document);
      var kept := RemovePunctuation(lowered);
      processed := RemoveStopwords(kept);
    }

    /** A new document without the stopwords; sentences are kept even when emptied. */
    method RemoveStopwords(document: Document) returns (processed: Document)
      ensures processed == WithoutStopwords(document, stopwords)
    {
      processed := [];
      for i := 0 to |document|
        invariant |processed| == i
        invariant forall i' :: 0 <= i' < i ==> processed[i'] == Filter(document[i'], NotIn(stopwords))
      {
        var oldSentence := document[i];
        var newSentence: Sentence := [];
        for j := 0 to |oldSentence|
          invariant newSentence == Filter(oldSentence[..j], NotIn(stopwords))
        {
          assert oldSentence[..j + 1][..j] == oldSentence[..j];
          if oldSentence[j] !in stopwords {
            newSentence := newSentence + [oldSentence[j]];
          }
        }
        assert oldSentence[..|oldSentence|] == oldSentence;
        processed := processed + [newSentence];
      }
    }

    /** A new document without the tokens that hold no letter or digit. */
    method RemovePunctuation(document: Document) returns (processed: Document)
      ensures processed == WithoutPunctuation(document)
    {
      processed := [];
      for i := 0 to |document|
        invariant |processed| == i
        invariant forall i' :: 0 <= i' < i ==> processed[i'] == Filter(document[i'], HasAlnum)
      {
        var sentence := document[i];
        var newTokens: Sentence := [];
        for j := 0 to |sentence|
          invariant newTokens == Filter(sentence[..j], HasAlnum)
        {
          assert sentence[..j + 1][..j] == sentence[..j];
          if HasAlnum(sentence[j]) {
            newTokens := newTokens + [sentence[j]];
          }
        }
        assert sentence[..|sentence|] == sentence;
        processed := processed + [newTokens];
      }
    }

    /** A new document with every token lower-cased. */
    method MakeLowercase(document: Document) returns (processed: Document)
      ensures processed == Lowercased(document)
    {
      processed := [];
      for i := 0 to |document|
        invariant |processed| == i
        invariant forall i' :: 0 <= i' < i ==> processed[i'] == Lowercased(document)[i']
      {
        var oldSentence := document[i];
        var newSentence: Sentence := [];
        for j := 0 to |oldSentence|
          invariant |newSentence| == j
          invariant forall j' :: 0 <= j' < j ==> newSentence[j'] == ToLower(oldSentence[j'])
        {
          newSentence := newSentence + [ToLower(oldSentence[j])];
        }
        processed := processed + [newSentence];
      }
    }
  }
}
