/** The BM25 keyword index of backend/src/services/retrieval.py:15-55: `fit` tokenizes a
    corpus and records document lengths, term counts and per-term idf; `get_scores` sums the
    BM25 term weights of the query's tokens for every document. */
module Bm25 {
  import opened Text

  /** The exceptions get_scores can raise on an inconsistent index. */
  datatype ScoreError = IndexError | ZeroDivisionError

  datatype Result<T> = Success(value: T) | Failure(error: ScoreError)

  /** What the model needs of math.log: it is positive above 1 ... */
  ghost predicate LnPositive(ln: real -> real)
  {
    forall y: real :: y > 1.0 ==> ln(y) > 0.0
  }

  /** ... and strictly increasing on the positive reals. */
  ghost predicate LnIncreasing(ln: real -> real)
  {
    forall x: real, y: real :: 0.0 < x < y ==> ln(x) < ln(y)
  }

  /** The tokenized corpus: one token list per document. */
  function TokenizeAll(tokenize: string -> seq<string>, corpus: seq<string>): (docs: seq<seq<string>>)
    ensures |docs| == |corpus|
    ensures forall i :: 0 <= i < |corpus| ==> docs[i] == tokenize(corpus[i])
  {
    seq(|corpus|, i requires 0 <= i < |corpus| => tokenize(corpus[i]))
  }

  /** doc_len: the number of tokens of each document. */
  function Lengths(docs: seq<seq<string>>): (lens: seq<nat>)
    ensures |lens| == |docs|
    ensures forall i :: 0 <= i < |docs| ==> lens[i] == |docs[i]|
  {
    seq(|docs|, i requires 0 <= i < |docs| => |docs[i]|)
  }

  /** doc_freqs: a Counter of each document's tokens, modelled as a multiset. */
  function Counters(docs: seq<seq<string>>): (tfs: seq<multiset<string>>)
    ensures |tfs| == |docs|
    ensures forall i :: 0 <= i < |docs| ==> tfs[i] == multiset(docs[i])
  {
    seq(|docs|, i requires 0 <= i < |docs| => multiset(docs[i]))
  }

  /** avgdl: the mean document length. */
  function AverageLength(lens: seq<nat>): (avg: real)
    requires |lens| > 0
    ensures avg >= 0.0
  {
    Sum(lens) as real / |lens| as real
  }

  /** set(document): the distinct tokens of one document. */
  function Distinct(doc: seq<string>): set<string>
  {
    set t | t in doc
  }

  /** Every term that occurs in some document. */
  function Terms(docs: seq<seq<string>>): set<string>
  {
    if docs == [] then {} else Terms(docs[..|docs| - 1]) + Distinct(docs[|docs| - 1])
  }

  /** The number of documents containing `t`: each document counts once, however often the
      term occurs in it. */
  function DocFreq(docs: seq<seq<string>>, t: string): nat
  {
    if docs == [] then 0
    else DocFreq(docs[..|docs| - 1], t) + (if t in docs[|docs| - 1] then 1 else 0)
  }

  /** The df dictionary fit builds. */
  function DfTable(docs: seq<seq<string>>): map<string, nat>
  {
    map t | t in Terms(docs) :: DocFreq(docs, t)
  }

  /** The idf of a term occurring in `f` of `n` documents. */
  function IdfOf(n: nat, f: nat, ln: real -> real): real
  {
    ln((n as real - f as real + 0.5) / (f as real + 0.5) + 1.0)
  }

  /** The idf entries one fit writes. */
  function IdfTable(docs: seq<seq<string>>, ln: real -> real): map<string, real>
  {
    map t | t in Terms(docs) :: IdfOf(|docs|, DocFreq(docs, t), ln)
  }

  /** A term is in the vocabulary exactly when at least one document contains it, and no
      term occurs in more documents than there are. */
  lemma {:induction false} DocFreqBounds(docs: seq<seq<string>>, t: string)
    ensures DocFreq(docs, t) <= |docs|
    ensures t in Terms(docs) <==> DocFreq(docs, t) >= 1
    decreases |docs|
  {
    if docs != [] {
      DocFreqBounds(docs[..|docs| - 1], t);
    }
  }

  /** A vocabulary term has a positive idf: the log's argument is above 1. */
  lemma IdfPositive(n: nat, f: nat, ln: real -> real)
    requires LnPositive(ln) && f <= n
    ensures IdfOf(n, f, ln) > 0.0
  {
    var num := n as real - f as real + 0.5;
    var den := f as real + 0.5;
    assert num / den > 0.0 by { DivPositive(num, den); }
  }

  lemma DivPositive(x: real, y: real)
    requires x > 0.0 && y > 0.0
    ensures x / y > 0.0
  {
  }

  lemma DivNonNegative(x: real, y: real)
    requires x >= 0.0 && y > 0.0
    ensures x / y >= 0.0
  {
  }

  lemma MulPositive(x: real, y: real)
    requires x > 0.0 && y > 0.0
    ensures x * y > 0.0
  {
  }

  lemma MulNonNegative(x: real, y: real)
    requires x >= 0.0 && y >= 0.0
    ensures x * y >= 0.0
  {
  }

  /** Multiplying by a positive factor keeps a strict order. */
  lemma MulLess(c: real, x: real, y: real)
    requires c > 0.0 && x < y
    ensures c * x < c * y && x * c < y * c
  {
    assert c * y - c * x == c * (y - x);
    MulPositive(c, y - x);
  }

  lemma PositiveFactor(a: real, d: real)
    requires d > 0.0 && a * d > 0.0
    ensures a > 0.0
  {
  }

  /** Fractions compare as their cross products. */
  lemma FracLess(a1: real, d1: real, a2: real, d2: real)
    requires d1 > 0.0 && d2 > 0.0 && a1 * d2 < a2 * d1
    ensures a1 / d1 < a2 / d2
  {
    var q1, q2 := a1 / d1, a2 / d2;
    assert q1 * d1 == a1 && q2 * d2 == a2;
    assert a1 * d2 == q1 * (d1 * d2);
    assert a2 * d1 == q2 * (d1 * d2);
    assert (q2 - q1) * (d1 * d2) == a2 * d1 - a1 * d2;
    MulPositive(d1, d2);
    PositiveFactor(q2 - q1, d1 * d2);
  }

  /** Rarer terms weigh more: a term found in fewer documents has a larger idf. */
  lemma IdfDecreasing(n: nat, f1: nat, f2: nat, ln: real -> real)
    requires LnIncreasing(ln) && f1 < f2 <= n
    ensures IdfOf(n, f1, ln) > IdfOf(n, f2, ln)
  {
    var a1, a2 := n as real - f1 as real + 0.5, n as real - f2 as real + 0.5;
    var d1, d2 := f1 as real + 0.5, f2 as real + 0.5;
    DivPositive(a2, d2);
    MulLess(d1, a2, a1);
    MulLess(a1, d1, d2);
    FracLess(a2, d2, a1, d1);
  }

  /** The idf values of a df table. */
  function IdfEntries(df: map<string, nat>, n: nat, ln: real -> real): map<string, real>
  {
    map t | t in df :: IdfOf(n, df[t], ln)
  }

  /** The entries the idf loop writes from the df table are the idf table of the corpus. */
  lemma IdfFromDf(docs: seq<seq<string>>, ln: real -> real)
    ensures IdfEntries(DfTable(docs), |docs|, ln) == IdfTable(docs, ln)
  {
  }

  /** Every idf entry a fit writes is positive. */
  lemma IdfTablePositive(docs: seq<seq<string>>, ln: real -> real)
    requires LnPositive(ln)
    ensures forall t :: t in IdfTable(docs, ln) ==> IdfTable(docs, ln)[t] > 0.0
  {
    forall t | t in IdfTable(docs, ln) ensures IdfTable(docs, ln)[t] > 0.0 {
      DocFreqBounds(docs, t);
      IdfPositive(|docs|, DocFreq(docs, t), ln);
    }
  }

  /** A corpus with a vocabulary has a positive average length, so scoring a fresh index
      never divides by zero. */
  lemma {:induction false} VocabularyMeansLength(docs: seq<seq<string>>, t: string)
    requires t in Terms(docs)
    ensures |docs| > 0 && AverageLength(Lengths(docs)) > 0.0
    decreases |docs|
  {
    var lens := Lengths(docs);
    var i := TermDocument(docs, t);
    assert lens[i] > 0;
    SumPositive(lens, i);
    DivPositive(Sum(lens) as real, |lens| as real);
  }

  /** A document that contains a vocabulary term. */
  lemma {:induction false} TermDocument(docs: seq<seq<string>>, t: string) returns (i: nat)
    requires t in Terms(docs)
    ensures i < |docs| && t in docs[i]
    decreases |docs|
  {
    if t in docs[|docs| - 1] {
      i := |docs| - 1;
    } else {
      i := TermDocument(docs[..|docs| - 1], t);
    }
  }

  /** The df-counting loop of fit: for every document, each distinct term of it adds one
      to that term's count. */
  method DocumentFrequencies(docs: seq<seq<string>>) returns (df: map<string, nat>)
    ensures df == DfTable(docs)
  {
    df := map[];
    for i := 0 to |docs|
      invariant df == DfTable(docs[..i])
    {
      var prefix := docs[..i];
      assert docs[..i + 1][..i] == prefix && docs[..i + 1][i] == docs[i];
      var terms := Distinct(docs[i]);
      ghost var done: set<string> := {};
      while terms != {}
        invariant done !! terms && done + terms == Distinct(docs[i])
        invariant forall t :: t in df <==> t in Terms(prefix) || t in done
        invariant forall t :: t in df ==> df[t] == DocFreq(prefix, t) + (if t in done then 1 else 0)
        decreases terms
      {
        var term :| term in terms;
        DocFreqBounds(prefix, term);
        df := df[term := (if term in df then df[term] else 0) + 1];
        terms := terms - {term};
        done := done + {term};
      }
      forall t | t !in Terms(prefix) ensures DocFreq(prefix, t) == 0 {
        DocFreqBounds(prefix, t);
      }
      assert df == DfTable(docs[..i + 1]);
    }
    assert docs[..|docs|] == docs;
  }

  /** The BM25 parameters and the average length one score is computed with. */
  datatype Weighting = Weighting(k1: real, b: real, avgdl: real)

  predicate Positive(w: Weighting)
  {
    0.0 < w.k1 && 0.0 <= w.b < 1.0 && w.avgdl > 0.0
  }

  /** The length normalisation K = k1 * (1 - b + b * dl / avgdl); positive. */
  function Norm(w: Weighting, dl: nat): (k: real)
    requires Positive(w)
    ensures k > 0.0
  {
    var inner := LengthFactor(w, dl);
    MulPositive(w.k1, inner);
    w.k1 * inner
  }

  /** 1 - b + b * dl / avgdl; positive since b < 1. */
  function LengthFactor(w: Weighting, dl: nat): (f: real)
    requires Positive(w)
    ensures f > 0.0
  {
    var ratio := LengthRatio(w, dl);
    MulNonNegative(w.b, ratio);
    1.0 - w.b + w.b * ratio
  }

  /** dl / avgdl; at least 0. */
  function LengthRatio(w: Weighting, dl: nat): (r: real)
    requires Positive(w)
    ensures r >= 0.0
  {
    DivNonNegative(dl as real, w.avgdl);
    dl as real / w.avgdl
  }

  /** The weight of one query token in a document whose count of that token is `tf`. */
  function TermScore(w: Weighting, idf: real, tf: nat, dl: nat): real
    requires Positive(w)
  {
    Weight(idf, tf as real, w.k1 + 1.0, Norm(w, dl))
  }

  /** idf * (x * c / (x + k)): the BM25 weight with c = k1 + 1 and K the length
      normalisation. */
  function Weight(idf: real, x: real, c: real, k: real): real
    requires x + k != 0.0
  {
    idf * ((x * c) / (x + k))
  }

  /** Term frequency saturates: the weight of a positive-idf token is at least 0, is 0 only
      for an absent token, and stays below idf * (k1 + 1) however often the token occurs. */
  lemma TermScoreBounds(w: Weighting, idf: real, tf: nat, dl: nat)
    requires Positive(w) && idf > 0.0
    ensures 0.0 <= TermScore(w, idf, tf, dl) < idf * (w.k1 + 1.0)
    ensures TermScore(w, idf, tf, dl) == 0.0 <==> tf == 0
  {
    Saturation(idf, tf as real, w.k1 + 1.0, Norm(w, dl));
  }

  /** idf * (x * c / (x + k)) lies in [0, idf * c) and is 0 exactly when x is. */
  lemma Saturation(idf: real, x: real, c: real, k: real)
    requires idf > 0.0 && x >= 0.0 && c > 0.0 && k > 0.0
    ensures 0.0 <= Weight(idf, x, c, k) < idf * c
    ensures Weight(idf, x, c, k) == 0.0 <==> x == 0.0
  {
    var num, den := x * c, x + k;
    MulNonNegative(x, c);
    DivNonNegative(num, den);
    MulNonNegative(idf, num / den);
    assert num / den < c by {
      assert num * 1.0 < c * den by {
        assert c * den == num + c * k;
        MulPositive(c, k);
      }
      FracLess(num, den, c, 1.0);
    }
    MulLess(idf, num / den, c);
    if x > 0.0 {
      MulPositive(x, c);
      DivPositive(num, den);
      MulPositive(idf, num / den);
    }
  }

  /** A token occurring more often in the same document weighs more. */
  lemma TermScoreMonotone(w: Weighting, idf: real, tf1: nat, tf2: nat, dl: nat)
    requires Positive(w) && idf > 0.0 && tf1 < tf2
    ensures TermScore(w, idf, tf1, dl) < TermScore(w, idf, tf2, dl)
  {
    var k := Norm(w, dl);
    var c := w.k1 + 1.0;
    var x1, x2 := tf1 as real, tf2 as real;
    var a1, a2 := x1 * c, x2 * c;
    assert a2 * (x1 + k) - a1 * (x2 + k) == c * k * (x2 - x1);
    MulPositive(c, k);
    MulPositive(c * k, x2 - x1);
    FracLess(a1, x1 + k, a2, x2 + k);
    MulLess(idf, a1 / (x1 + k), a2 / (x2 + k));
  }

  /** With b > 0, the same token count weighs more in a shorter document. */
  lemma TermScoreLengthPenalty(w: Weighting, idf: real, tf: nat, dl1: nat, dl2: nat)
    requires Positive(w) && w.b > 0.0 && idf > 0.0 && tf > 0 && dl1 < dl2
    ensures TermScore(w, idf, tf, dl1) > TermScore(w, idf, tf, dl2)
  {
    var n1, n2 := Norm(w, dl1), Norm(w, dl2);
    var r1, r2 := LengthRatio(w, dl1), LengthRatio(w, dl2);
    assert r1 < r2 by {
      assert dl1 as real * w.avgdl < dl2 as real * w.avgdl by { MulLess(w.avgdl, dl1 as real, dl2 as real); }
      FracLess(dl1 as real, w.avgdl, dl2 as real, w.avgdl);
    }
    MulLess(w.b, r1, r2);
    var f1, f2 := LengthFactor(w, dl1), LengthFactor(w, dl2);
    assert f1 < f2;
    MulLess(w.k1, f1, f2);
    assert n1 < n2;
    var x := tf as real * (w.k1 + 1.0);
    MulPositive(tf as real, w.k1 + 1.0);
    var d1, d2 := tf as real + n1, tf as real + n2;
    MulLess(x, d1, d2);
    FracLess(x, d2, x, d1);
    MulLess(idf, x / d2, x / d1);
  }

  /** The BM25 score of one document (its token counts `tf` and length `dl`) for the query
      tokens `q`: the weights of the tokens that are in the idf table, one per occurrence in
      the query; the other tokens are skipped. */
  function DocScore(w: Weighting, idf: map<string, real>, tf: multiset<string>, dl: nat, q: seq<string>): real
    requires Positive(w)
  {
    if q == [] then 0.0
    else
      var t := q[|q| - 1];
      DocScore(w, idf, tf, dl, q[..|q| - 1]) + (if t in idf then TermScore(w, idf[t], tf[t], dl) else 0.0)
  }

  /** Scores add up over the query: scoring `q1 + q2` is scoring each part and adding. */
  lemma {:induction false} DocScoreAppend(w: Weighting, idf: map<string, real>, tf: multiset<string>, dl: nat,
                                          q1: seq<string>, q2: seq<string>)
    requires Positive(w)
    ensures DocScore(w, idf, tf, dl, q1 + q2) == DocScore(w, idf, tf, dl, q1) + DocScore(w, idf, tf, dl, q2)
    decreases |q2|
  {
    if q2 != [] {
      var q2' := q2[..|q2| - 1];
      assert (q1 + q2)[..|q1 + q2| - 1] == q1 + q2';
      DocScoreAppend(w, idf, tf, dl, q1, q2');
    } else {
      assert q1 + q2 == q1;
    }
  }

  /** With positive idf values no document scores below zero. */
  lemma {:induction false} DocScoreNonNegative(w: Weighting, idf: map<string, real>, tf: multiset<string>, dl: nat, q: seq<string>)
    requires Positive(w) && forall t :: t in idf ==> idf[t] > 0.0
    ensures DocScore(w, idf, tf, dl, q) >= 0.0
    decreases |q|
  {
    if q != [] {
      DocScoreNonNegative(w, idf, tf, dl, q[..|q| - 1]);
      var t := q[|q| - 1];
      if t in idf {
        TermScoreBounds(w, idf[t], tf[t], dl);
      }
    }
  }

  /** A document containing none of the query tokens scores 0. */
  lemma {:induction false} DocScoreUnmatched(w: Weighting, idf: map<string, real>, tf: multiset<string>, dl: nat, q: seq<string>)
    requires Positive(w)
    requires forall i :: 0 <= i < |q| ==> tf[q[i]] == 0
    ensures DocScore(w, idf, tf, dl, q) == 0.0
    decreases |q|
  {
    if q != [] {
      DocScoreUnmatched(w, idf, tf, dl, q[..|q| - 1]);
    }
  }

  /** Query tokens outside the vocabulary change nothing. */
  lemma {:induction false} DocScoreUnknown(w: Weighting, idf: map<string, real>, tf: multiset<string>, dl: nat, q: seq<string>)
    requires Positive(w)
    requires forall i :: 0 <= i < |q| ==> q[i] !in idf
    ensures DocScore(w, idf, tf, dl, q) == 0.0
    decreases |q|
  {
    if q != [] {
      DocScoreUnknown(w, idf, tf, dl, q[..|q| - 1]);
    }
  }

  /** A token repeated in the query counts once per occurrence: each known occurrence adds
      its term score. */
  lemma DocScoreRepeat(w: Weighting, idf: map<string, real>, tf: multiset<string>, dl: nat,
                       q1: seq<string>, t: string, q2: seq<string>)
    requires Positive(w) && t in idf
    ensures DocScore(w, idf, tf, dl, q1 + [t] + q2) ==
      DocScore(w, idf, tf, dl, q1 + q2) + TermScore(w, idf[t], tf[t], dl)
  {
    DocScoreAppend(w, idf, tf, dl, q1 + [t], q2);
    DocScoreAppend(w, idf, tf, dl, q1, [t]);
    DocScoreAppend(w, idf, tf, dl, q1, q2);
    assert [t][..0] == [];
  }

  /** Whether some query token is in the idf table. */
  predicate Known(idf: map<string, real>, q: seq<string>)
  {
    exists i :: 0 <= i < |q| && q[i] in idf
  }

  /** Slot `i` can be scored: usable parameters and, for a slot that has a Counter, a
      positive average length and a doc_len entry. */
  predicate SlotReady(w: Weighting, dfs: seq<multiset<string>>, lens: seq<nat>, i: nat)
  {
    0.0 < w.k1 && 0.0 <= w.b < 1.0 && (i >= |dfs| || (w.avgdl > 0.0 && i < |lens|))
  }

  /** The score get_scores leaves in slot `i`: 0 when no query token is known or the slot
      has no Counter, the document's BM25 score otherwise. */
  function SlotScore(w: Weighting, idf: map<string, real>, dfs: seq<multiset<string>>, lens: seq<nat>,
                     q: seq<string>, i: nat): real
    requires !Known(idf, q) || SlotReady(w, dfs, lens, i)
  {
    if !Known(idf, q) || i >= |dfs| then 0.0 else DocScore(w, idf, dfs[i], lens[i], q)
  }

  /** Scoring one more known token adds its weight to the slot. */
  lemma SlotStep(w: Weighting, idf: map<string, real>, dfs: seq<multiset<string>>, lens: seq<nat>,
                 q: seq<string>, i: nat)
    requires q != [] && q[|q| - 1] in idf && i < |dfs| && SlotReady(w, dfs, lens, i)
    ensures Known(idf, q)
    ensures SlotScore(w, idf, dfs, lens, q, i) ==
      SlotScore(w, idf, dfs, lens, q[..|q| - 1], i) + TermScore(w, idf[q[|q| - 1]], dfs[i][q[|q| - 1]], lens[i])
  {
    var p := q[..|q| - 1];
    assert Known(idf, q);
    if !Known(idf, p) {
      DocScoreUnknown(w, idf, dfs[i], lens[i], p);
    }
  }

  /** Scoring one more unknown token changes no slot. */
  lemma SlotSkip(w: Weighting, idf: map<string, real>, dfs: seq<multiset<string>>, lens: seq<nat>,
                 q: seq<string>, i: nat)
    requires q != [] && q[|q| - 1] !in idf
    ensures Known(idf, q) <==> Known(idf, q[..|q| - 1])
    ensures !Known(idf, q) || SlotReady(w, dfs, lens, i) ==>
      SlotScore(w, idf, dfs, lens, q, i) == SlotScore(w, idf, dfs, lens, q[..|q| - 1], i)
  {
    var p := q[..|q| - 1];
    if Known(idf, q) {
      var k :| 0 <= k < |q| && q[k] in idf;
      assert k < |p| && p[k] == q[k];
    }
    if Known(idf, p) {
      var k :| 0 <= k < |p| && p[k] in idf;
      assert q[k] == p[k];
    }
  }

  /** Overwriting positive idf values with positive ones keeps them positive. */
  lemma UnionPositive(a: map<string, real>, b: map<string, real>)
    requires forall t :: t in a ==> a[t] > 0.0
    requires forall t :: t in b ==> b[t] > 0.0
    ensures forall t :: t in a + b ==> (a + b)[t] > 0.0
  {
  }

  /** The idf-writing loop of fit: each df entry sets the idf of its term, overwriting an
      older value and leaving the other entries alone. */
  method WriteIdf(idf0: map<string, real>, df: map<string, nat>, n: nat, ln: real -> real)
    returns (idf: map<string, real>)
    ensures idf == idf0 + IdfEntries(df, n, ln)
  {
    idf := idf0;
    var keys := df.Keys;
    while keys != {}
      invariant keys <= df.Keys
      invariant forall t :: t in idf <==> t in idf0 || (t in df && t !in keys)
      invariant forall t :: t in idf ==>
        idf[t] == if t in df && t !in keys then IdfOf(n, df[t], ln) else idf0[t]
      decreases keys
    {
      var term :| term in keys;
      idf := idf[term := IdfOf(n, df[term], ln)];
      keys := keys - {term};
    }
  }

  /** The index. Fields are those of the source object; `tokenize` stands for
      _tokenize_vietnamese and `ln` for math.log. */
  class BM25 {
    const k1: real
    const b: real
    const tokenize: string -> seq<string>
    const ln: real -> real
    var corpusSize: nat
    var avgdl: real
    var docFreqs: seq<multiset<string>>
    var idf: map<string, real>
    var docLen: seq<nat>
    var documents: seq<string>

    /** What every reachable state keeps: usable parameters, a non-negative average length
        and positive idf values. */
    ghost predicate Valid()
      reads this
    {
      0.0 < k1 && 0.0 <= b < 1.0 && LnPositive(ln) && avgdl >= 0.0
      && forall t :: t in idf ==> idf[t] > 0.0
    }

    constructor (k1: real, b: real, tokenize: string -> seq<string>, ln: real -> real)
      requires 0.0 < k1 && 0.0 <= b < 1.0 && LnPositive(ln)
      ensures Valid()
      ensures this.k1 == k1 && this.b == b && this.tokenize == tokenize && this.ln == ln
      ensures corpusSize == 0 && avgdl == 0.0 && docFreqs == [] && idf == map[] && docLen == [] && documents == []
    {
      this.k1, this.b := k1, b;
      this.tokenize, this.ln := tokenize, ln;
      corpusSize, avgdl := 0, 0.0;
      docFreqs, idf, docLen, documents := [], map[], [], [];
    }

    /** fit. An empty corpus raises ZeroDivisionError when the average length is computed
        (ok == false); by then the size, the documents and the lengths are already
        overwritten. Otherwise the idf table is updated, not replaced: entries of an
        earlier fit for terms the new corpus lacks stay. */
    method Fit(corpus: seq<string>) returns (ok: bool)
      requires Valid()
      modifies this
      ensures Valid()
      ensures ok <==> |corpus| > 0
      ensures corpusSize == |corpus| && documents == corpus
      ensures !ok ==> docLen == [] && avgdl == old(avgdl) && docFreqs == old(docFreqs) && idf == old(idf)
      ensures ok ==>
        var docs := TokenizeAll(tokenize, corpus);
        docLen == Lengths(docs) && avgdl == AverageLength(docLen)
        && docFreqs == Counters(docs) && idf == old(idf) + IdfTable(docs, ln)
    {
      var tokenized := TokenizeAll(tokenize, corpus);
      var lens := Lengths(tokenized);
      corpusSize, documents, docLen := |corpus|, corpus, lens;
      if |corpus| == 0 {
        return false;
      }
      var average := AverageLength(lens);
      var df := DocumentFrequencies(tokenized);
      ghost var table := IdfTable(tokenized, ln);
      IdfFromDf(tokenized, ln);
      IdfTablePositive(tokenized, ln);
      UnionPositive(idf, table);
      var written := WriteIdf(idf, df, |corpus|, ln);
      avgdl, idf, docFreqs := average, written, Counters(tokenized);
      return true;
    }

    /** The error scoring a known token raises, in the order the loop meets them: a missing
        doc_len entry, a zero average length, a missing slot in the result array. */
    function Fault(): Option<ScoreError>
      reads this
    {
      if docFreqs == [] then None
      else if docLen == [] then Some(IndexError)
      else if avgdl == 0.0 then Some(ZeroDivisionError)
      else if |docFreqs| > |docLen| || |docFreqs| > corpusSize then Some(IndexError)
      else None
    }

    function Weights(): Weighting
      reads this
    {
      Weighting(k1, b, avgdl)
    }

    /** get_scores, as a specification: when some query token is in the idf table and the
        index is inconsistent, the error of Fault; otherwise one score per document slot. */
    function Scores(query: string): Result<seq<real>>
      reads this
      requires Valid()
    {
      var q := tokenize(query);
      if Known(idf, q) && Fault().Some? then Failure(Fault().value)
      else
        var w, m, dfs, lens, n := Weights(), idf, docFreqs, docLen, corpusSize;
        assert forall i: nat :: !Known(m, q) || SlotReady(w, dfs, lens, i);
        Success(seq(n, i requires 0 <= i < n => SlotScore(w, m, dfs, lens, q, i)))
    }

    /** A successful get_scores returns one score per fitted document, in fit order, and
        every score is at least 0. */
    lemma ScoresShape(query: string)
      requires Valid()
      ensures Scores(query).Success? ==> |Scores(query).value| == corpusSize
      ensures Scores(query).Success? ==> forall i :: 0 <= i < corpusSize ==> Scores(query).value[i] >= 0.0
    {
      var r := Scores(query);
      var q := tokenize(query);
      if r.Success? && Known(idf, q) {
        forall i | 0 <= i < corpusSize ensures r.value[i] >= 0.0 {
          if i < |docFreqs| {
            DocScoreNonNegative(Weights(), idf, docFreqs[i], docLen[i], q);
          }
        }
      }
    }

    /** get_scores: for every query token in the idf table, add its weight to every
        document's slot of a zero-initialised array. */
    method GetScores(query: string) returns (r: Result<seq<real>>)
      requires Valid()
      ensures r == Scores(query)
    {
      var q := tokenize(query);
      var scores := new real[corpusSize](_ => 0.0);
      for j := 0 to |q|
        invariant !Known(idf, q[..j]) || Fault().None?
        invariant forall i :: 0 <= i < corpusSize ==>
          scores[i] == SlotScore(Weights(), idf, docFreqs, docLen, q[..j], i)
      {
        var token := q[j];
        assert q[..j + 1][..j] == q[..j] && q[..j + 1][j] == token;
        if token !in idf {
          SkipToken(scores, q[..j + 1]);
          continue;
        }
        var fault := ScoreToken(scores, q[..j + 1]);
        if fault.Some? {
          assert Known(idf, q) by { assert q[j] in idf; }
          return Failure(fault.value);
        }
      }
      assert q[..|q|] == q;
      var w, m, dfs, lens, n := Weights(), idf, docFreqs, docLen, corpusSize;
      assert scores[..] == seq(n, i requires 0 <= i < n => SlotScore(w, m, dfs, lens, q, i));
      return Success(scores[..]);
    }

    /** A query token outside the idf table leaves every slot as it was. */
    lemma SkipToken(scores: array<real>, q: seq<string>)
      requires Valid() && q != [] && q[|q| - 1] !in idf && scores.Length == corpusSize
      requires !Known(idf, q[..|q| - 1]) || Fault().None?
      requires forall i :: 0 <= i < corpusSize ==>
        scores[i] == SlotScore(Weights(), idf, docFreqs, docLen, q[..|q| - 1], i)
      ensures !Known(idf, q) || Fault().None?
      ensures forall i :: 0 <= i < corpusSize ==>
        scores[i] == SlotScore(Weights(), idf, docFreqs, docLen, q, i)
    {
      SlotSkip(Weights(), idf, docFreqs, docLen, q, 0);
      forall i | 0 <= i < corpusSize
        ensures scores[i] == SlotScore(Weights(), idf, docFreqs, docLen, q, i)
      {
        SlotSkip(Weights(), idf, docFreqs, docLen, q, i);
      }
    }

    /** The inner loop of get_scores for the last token of `q`, a token in the idf table:
        add its weight to the slot of every document in doc_freqs. It stops with the error
        of Fault at the first document it cannot score. */
    method ScoreToken(scores: array<real>, q: seq<string>) returns (fault: Option<ScoreError>)
      requires Valid() && q != [] && q[|q| - 1] in idf && scores.Length == corpusSize
      requires !Known(idf, q[..|q| - 1]) || Fault().None?
      requires forall i :: 0 <= i < corpusSize ==>
        scores[i] == SlotScore(Weights(), idf, docFreqs, docLen, q[..|q| - 1], i)
      modifies scores
      ensures fault == Fault()
      ensures fault.None? ==> forall i :: 0 <= i < corpusSize ==>
        scores[i] == SlotScore(Weights(), idf, docFreqs, docLen, q, i)
    {
      var token := q[|q| - 1];
      var idfValue := idf[token];
      var w, m, dfs, lens := Weights(), idf, docFreqs, docLen;
      for idx := 0 to |docFreqs|
        invariant idx <= |docLen| && idx <= corpusSize && (idx > 0 ==> avgdl > 0.0)
        invariant forall i :: 0 <= i < scores.Length ==>
          scores[i] == if i < idx then SlotScore(w, m, dfs, lens, q, i)
                       else SlotScore(w, m, dfs, lens, q[..|q| - 1], i)
      {
        var tf := docFreqs[idx][token];
        if idx >= |docLen| {
          return Some(IndexError);
        }
        if avgdl == 0.0 {
          return Some(ZeroDivisionError);
        }
        // idf * (numerator / denominator), with the doc_len lookup and the division by avgdl
        // checked just above
        var weight := TermScore(w, idfValue, tf, docLen[idx]);
        if idx >= scores.Length {
          return Some(IndexError);
        }
        SlotStep(w, m, dfs, lens, q, idx);
        scores[idx] := scores[idx] + weight;
      }
      assert Known(idf, q) by { assert q[|q| - 1] in idf; }
      return None;
    }
  }
}
