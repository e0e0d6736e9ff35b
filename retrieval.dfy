/** HybridRetriever (backend/src/services/retrieval.py:58-127): a BM25 index fitted on the
    chunk texts, semantic scores supplied from outside, min-max fusion, top-k selection and
    the re-ranking pass. */
module Retrieval {
  import opened Text
  import opened ChunkModel
  import opened Rerank
  import Bm25
  import Fusion

  /** One embedded chunk; the embedding vector itself is not modelled, the semantic scores
      it yields are a parameter of retrieval. */
  datatype EmbeddedChunk = EmbeddedChunk(chunkId: nat, content: string, metadata: Metadata)

  /** The embedding pipeline numbers chunks by their position
      (backend/src/services/embedding.py:40-46). */
  predicate IdsAreIndices(chunks: seq<EmbeddedChunk>)
  {
    forall i :: 0 <= i < |chunks| ==> chunks[i].chunkId == i
  }

  function Contents(chunks: seq<EmbeddedChunk>): (corpus: seq<string>)
    ensures |corpus| == |chunks|
  {
    seq(|chunks|, i requires 0 <= i < |chunks| => chunks[i].content)
  }

  /** The index holds exactly what fit on `corpus` computes from a fresh BM25 object. */
  ghost predicate FittedOn(index: Bm25.BM25, corpus: seq<string>)
    reads index
  {
    var docs := Bm25.TokenizeAll(index.tokenize, corpus);
    |corpus| > 0 && index.corpusSize == |corpus| && index.documents == corpus
    && index.docLen == Bm25.Lengths(docs) && index.avgdl == Bm25.AverageLength(index.docLen)
    && index.docFreqs == Bm25.Counters(docs) && index.idf == Bm25.IdfTable(docs, index.ln)
  }

  /** An index fitted on a non-empty corpus scores every query: one score per document, all
      at least 0. get_scores can only fail on an index fitted on nothing, or refitted. */
  lemma FittedScores(index: Bm25.BM25, corpus: seq<string>, query: string)
    requires index.Valid() && FittedOn(index, corpus)
    ensures index.Scores(query).Success?
    ensures |index.Scores(query).value| == |corpus|
    ensures forall i :: 0 <= i < |corpus| ==> index.Scores(query).value[i] >= 0.0
  {
    var docs := Bm25.TokenizeAll(index.tokenize, corpus);
    var q := index.tokenize(query);
    if Bm25.Known(index.idf, q) {
      var k :| 0 <= k < |q| && q[k] in index.idf;
      Bm25.VocabularyMeansLength(docs, q[k]);
    }
    index.ScoresShape(query);
  }

  /** The result dictionary for chunk `idx` at position `rank`. */
  function ResultAt(chunks: seq<EmbeddedChunk>, combined: seq<real>, semantic: seq<real>, keyword: seq<real>,
                    details: bool, idx: nat, rank: nat): Candidate
    requires idx < |chunks| == |combined| == |semantic| == |keyword|
  {
    Candidate(rank, chunks[idx].chunkId, chunks[idx].content, chunks[idx].metadata, combined[idx],
              if details then Some(semantic[idx]) else None,
              if details then Some(keyword[idx]) else None, None, None)
  }

  /** semantic_weight * normalised semantic scores + keyword_weight * normalised BM25
      scores. */
  function Fused(semanticWeight: real, semantic: seq<real>, keywordWeight: real, keyword: seq<real>): (c: seq<real>)
    requires 0 < |semantic| == |keyword|
    ensures |c| == |semantic|
  {
    Fusion.Combine(semanticWeight, Fusion.Normalize(semantic), keywordWeight, Fusion.Normalize(keyword))
  }

  /** The result list for the chosen indices `top`, in that order, ranked from 1. */
  function ResultsFrom(chunks: seq<EmbeddedChunk>, combined: seq<real>, semantic: seq<real>, keyword: seq<real>,
                       top: seq<nat>, details: bool): (r: seq<Candidate>)
    requires |chunks| == |combined| == |semantic| == |keyword|
    requires forall j :: 0 <= j < |top| ==> top[j] < |chunks|
    ensures |r| == |top|
    ensures forall j :: 0 <= j < |top| ==> r[j] == ResultAt(chunks, combined, semantic, keyword, details, top[j], j + 1)
  {
    seq(|top|, j requires 0 <= j < |top| => ResultAt(chunks, combined, semantic, keyword, details, top[j], j + 1))
  }

  /** retrieve, as a specification: the top_k chunks by fused score, best first, ranked from
      1. */
  function Results(chunks: seq<EmbeddedChunk>, semanticWeight: real, semantic: seq<real>,
                   keywordWeight: real, keyword: seq<real>, topK: int, details: bool): seq<Candidate>
    requires 0 < |chunks| == |semantic| == |keyword|
  {
    var combined := Fused(semanticWeight, semantic, keywordWeight, keyword);
    ResultsFrom(chunks, combined, semantic, keyword, Fusion.TopIndices(combined, topK), details)
  }

  /** Every result carries its chunk: rank j + 1 at position j, the chunk's id, content,
      metadata and fused score; semantic and keyword scores are present exactly when details
      are asked for, and then are the chunk's raw scores. */
  lemma ResultsFromFields(chunks: seq<EmbeddedChunk>, combined: seq<real>, semantic: seq<real>, keyword: seq<real>,
                          top: seq<nat>, details: bool)
    requires |chunks| == |combined| == |semantic| == |keyword| && IdsAreIndices(chunks)
    requires forall j :: 0 <= j < |top| ==> top[j] < |chunks|
    ensures var r := ResultsFrom(chunks, combined, semantic, keyword, top, details);
      forall j :: 0 <= j < |r| ==>
        && r[j].rank == j + 1 && r[j].chunkId == top[j]
        && r[j].content == chunks[top[j]].content && r[j].metadata == chunks[top[j]].metadata
        && r[j].combined == combined[top[j]]
        && (r[j].semantic.Some? <==> details) && (r[j].keyword.Some? <==> details)
        && (details ==> r[j].semantic == Some(semantic[top[j]]) && r[j].keyword == Some(keyword[top[j]]))
        && r[j].rerank.None? && r[j].final.None?
  {
  }

  /** With a best-first list of distinct indices, the results have distinct chunk ids and
      fused scores that do not increase; if no index left out beats a chosen one, no chunk
      left out scores higher than one returned. */
  lemma ResultsFromOrder(chunks: seq<EmbeddedChunk>, combined: seq<real>, semantic: seq<real>, keyword: seq<real>,
                         top: seq<nat>, details: bool)
    requires |chunks| == |combined| == |semantic| == |keyword| && IdsAreIndices(chunks)
    requires Fusion.Descending(combined, top) && Fusion.Distinct(top)
    requires forall j, x :: 0 <= j < |top| && 0 <= x < |combined| && x !in top ==> combined[x] <= combined[top[j]]
    ensures var r := ResultsFrom(chunks, combined, semantic, keyword, top, details);
      && (forall j, k :: 0 <= j < k < |r| ==> r[j].chunkId != r[k].chunkId && r[j].combined >= r[k].combined)
      && (forall x, j :: 0 <= x < |chunks| && 0 <= j < |r| && (forall k :: 0 <= k < |r| ==> r[k].chunkId != x) ==>
            combined[x] <= r[j].combined)
  {
    var r := ResultsFrom(chunks, combined, semantic, keyword, top, details);
    forall x, j | 0 <= x < |chunks| && 0 <= j < |r| && (forall k :: 0 <= k < |r| ==> r[k].chunkId != x)
      ensures combined[x] <= r[j].combined
    {
      assert forall k :: 0 <= k < |top| ==> top[k] == r[k].chunkId;
    }
  }

  /** retrieve returns min(top_k, N) results (Python slice bounds), ranked 1, 2, ... in
      order, with distinct chunk ids and non-increasing fused scores, and no chunk left out
      scores higher than one returned. */
  lemma ResultsShape(chunks: seq<EmbeddedChunk>, semanticWeight: real, semantic: seq<real>,
                     keywordWeight: real, keyword: seq<real>, topK: int, details: bool)
    requires 0 < |chunks| == |semantic| == |keyword| && IdsAreIndices(chunks)
    ensures var r := Results(chunks, semanticWeight, semantic, keywordWeight, keyword, topK, details);
      var combined := Fused(semanticWeight, semantic, keywordWeight, keyword);
      && |r| == SliceLen(|chunks|, topK)
      && RanksIncrease(r)
      && (forall j :: 0 <= j < |r| ==> r[j].rank == j + 1)
      && (forall j :: 0 <= j < |r| ==> r[j].chunkId < |chunks| && r[j].combined == combined[r[j].chunkId])
      && (forall j, k :: 0 <= j < k < |r| ==> r[j].chunkId != r[k].chunkId && r[j].combined >= r[k].combined)
      && (forall x, j :: 0 <= x < |chunks| && 0 <= j < |r| && (forall k :: 0 <= k < |r| ==> r[k].chunkId != x) ==>
            combined[x] <= r[j].combined)
  {
    var combined := Fused(semanticWeight, semantic, keywordWeight, keyword);
    var top := Fusion.TopIndices(combined, topK);
    Fusion.TopIndicesShape(combined, topK);
    ResultsFromFields(chunks, combined, semantic, keyword, top, details);
    ResultsFromOrder(chunks, combined, semantic, keyword, top, details);
  }

  /** The loop of retrieve that builds one result dictionary per chosen index, adding the raw
      scores when details are asked for. */
  method BuildResults(chunks: seq<EmbeddedChunk>, combined: seq<real>, semantic: seq<real>, keyword: seq<real>,
                      top: seq<nat>, details: bool) returns (results: seq<Candidate>)
    requires |chunks| == |combined| == |semantic| == |keyword|
    requires forall j :: 0 <= j < |top| ==> top[j] < |chunks|
    ensures results == ResultsFrom(chunks, combined, semantic, keyword, top, details)
  {
    results := [];
    for j := 0 to |top|
      invariant |results| == j
      invariant forall k :: 0 <= k < j ==>
        results[k] == ResultAt(chunks, combined, semantic, keyword, details, top[k], k + 1)
    {
      var idx := top[j];
      var result := Candidate(j + 1, chunks[idx].chunkId, chunks[idx].content, chunks[idx].metadata,
                              combined[idx], None, None, None, None);
      if details {
        result := result.(semantic := Some(semantic[idx]), keyword := Some(keyword[idx]));
      }
      assert result == ResultAt(chunks, combined, semantic, keyword, details, idx, j + 1);
      results := results + [result];
    }
  }

  /** The retriever. `lower` stands for str.lower, and `findWords` and `findDates` for the
      two regular expressions of _compute_rerank_score. */
  class HybridRetriever {
    const chunks: seq<EmbeddedChunk>
    const semanticWeight: real
    const keywordWeight: real
    const lower: string -> string
    const findWords: string -> seq<string>
    const findDates: string -> seq<string>
    const bm25: Bm25.BM25

    ghost predicate Valid()
      reads this, bm25
    {
      |chunks| > 0 && bm25.Valid() && FittedOn(bm25, Contents(chunks))
    }

    /** The constructor: a BM25 index with k1 = 1.5 and b = 0.75 fitted on the chunk texts.
        np.vstack raises on an empty list, so there is at least one chunk. */
    constructor (chunks: seq<EmbeddedChunk>, semanticWeight: real, keywordWeight: real,
                 tokenize: string -> seq<string>, ln: real -> real,
                 lower: string -> string, findWords: string -> seq<string>, findDates: string -> seq<string>)
      requires |chunks| > 0 && Bm25.LnPositive(ln)
      ensures Valid()
      ensures this.chunks == chunks && this.semanticWeight == semanticWeight && this.keywordWeight == keywordWeight
      ensures this.lower == lower && this.findWords == findWords && this.findDates == findDates
      ensures bm25.k1 == 1.5 && bm25.b == 0.75 && bm25.tokenize == tokenize && bm25.ln == ln
    {
      var index := new Bm25.BM25(1.5, 0.75, tokenize, ln);
      var ok := index.Fit(Contents(chunks));
      assert index.idf == Bm25.IdfTable(Bm25.TokenizeAll(tokenize, Contents(chunks)), ln);
      this.chunks := chunks;
      this.semanticWeight, this.keywordWeight := semanticWeight, keywordWeight;
      this.lower, this.findWords, this.findDates := lower, findWords, findDates;
      this.bm25 := index;
    }

    /** The BM25 scores of the query; always available on a valid retriever. */
    function KeywordScores(query: string): (s: seq<real>)
      reads this, bm25
      requires Valid()
      ensures |s| == |chunks|
    {
      FittedScores(bm25, Contents(chunks), query);
      bm25.Scores(query).value
    }

    /** retrieve: `semantic` holds the cosine score of every chunk for the query. */
    method Retrieve(query: string, semantic: seq<real>, topK: int, details: bool) returns (results: seq<Candidate>)
      requires Valid() && |semantic| == |chunks|
      ensures results == Results(chunks, semanticWeight, semantic, keywordWeight, KeywordScores(query), topK, details)
    {
      var scored := bm25.GetScores(query);
      FittedScores(bm25, Contents(chunks), query);
      var keyword := scored.value;
      var combined := Fused(semanticWeight, semantic, keywordWeight, keyword);
      var top := Fusion.TopIndices(combined, topK);
      results := BuildResults(chunks, combined, semantic, keyword, top, details);
    }

    /** retrieve_with_rerank: retrieve candidate_k candidates with details, annotate each in
        place, sort them by final score and keep the first top_k. */
    method RetrieveWithRerank(query: string, semantic: seq<real>, topK: int, candidateK: int) returns (r: seq<Candidate>)
      requires Valid() && |semantic| == |chunks|
      ensures r == Reranked(query, lower, findWords, findDates,
        Results(chunks, semanticWeight, semantic, keywordWeight, KeywordScores(query), candidateK, true), topK)
    {
      var candidates := Retrieve(query, semantic, candidateK, true);
      r := RerankCandidates(query, lower, findWords, findDates, candidates, topK);
    }
  }
}
