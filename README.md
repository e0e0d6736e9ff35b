# History chatbot retrieval core in Dafny

This project models the two services at the heart of the Vietnamese-history chatbot's
retrieval-augmented backend, and proves properties of the model:

- **VietnameseHistoryChunker** (`backend/src/services/chunking.py`) cuts a Markdown history
  text into chunks. It scans the text line by line and starts a new chunk at every heading.
  It tracks the chapter / section / subsection hierarchy and stores it, with its " > "
  breadcrumb, as each chunk's metadata. A buffer over `max_chunk_size` tokens that is not
  special content is split at blank lines. When the closed buffer has more than two
  '.'-pieces, the next sub-chunk starts with the last two of them joined by ". ". Finally, chunks under `min_chunk_size` tokens are merged
  forward into their successor.
- **BM25** (`backend/src/services/retrieval.py`) is the keyword index. `fit` records the
  document lengths, term counters, document frequencies and idf values. `get_scores` adds
  the BM25 weight of every known query token to each document's score.
- **HybridRetriever** (same file) min-max normalises the semantic and the BM25 scores and
  blends them with the two weights. It returns the top-k chunks best first, ranked from 1.
  `retrieve_with_rerank` adds a heuristic re-rank score to each candidate: a phrase match,
  word coverage and a date match, capped at 1. It blends that score 0.6 / 0.4 with the
  retrieval score and stably sorts the candidates by the result.

The modules follow the source:

| module | file |
|---|---|
| `Text` | `text.dfy`: the Python string and list built-ins used (strip, split, join, slicing, sum) |
| `ChunkModel` | `chunk_model.dfy`: chunks, hierarchy, settings, count_tokens, build_hierarchy_string |
| `LongSections` | `long_sections.dfy`: split_long_section |
| `SmallChunks` | `small_chunks.dfy`: _merge_small_chunks |
| `Chunker` | `chunker.dfy`: chunk_markdown and create_chunk_from_buffer |
| `Bm25` | `bm25.dfy`: the BM25 class |
| `Fusion` | `fusion.dfy`: _normalize_scores, the weighted sum, the argsort and top-k |
| `Rerank` | `rerank.dfy`: _compute_rerank_score, the annotation loop, the stable sort |
| `Retrieval` | `retrieval.dfy`: the HybridRetriever class |

The code that changes state in the source is modelled as imperative Dafny, and each method
is proved against a specification function. The state-changing code is the scanning loops of
the chunker, the index-based merge loop, `fit`, `get_scores`, the result loop of `retrieve`,
and the in-place annotation and `list.sort` of `retrieve_with_rerank`. BM25 and
HybridRetriever are classes. The re-ranking works on an array of candidates, annotated and
then insertion-sorted in place. The lemmas state the promised properties of those
specification functions.

## Model

| member | source | states |
|---|---|---|
| Text.Strip | backend/src/services/chunking.py:116 | definition: str.strip(), leading and trailing whitespace removed; its properties are StripEmpty, StripIdempotent and StripIsSlice |
| Text.StripEmpty | backend/src/services/chunking.py:91-93 | a text strips to "" exactly when it is all whitespace, which is when create_chunk_from_buffer emits nothing |
| Text.StripIdempotent | backend/src/services/chunking.py:116 | stripping an already stripped line changes nothing |
| Text.StripIsSlice | backend/src/services/chunking.py:116 | strip only removes characters at the two ends: the result is a slice of the input |
| Text.Join | backend/src/services/chunking.py:91 | definition: str.join, the parts with the separator between neighbours; SplitOn, SplitJoin and ChunkModel.HierarchyPathShape are about it |
| Text.Contains | backend/src/services/retrieval.py:110 | definition: Python's `sub in s`, an occurrence of sub at some position; SplitOn, SplitPiecesFree and Rerank.EmptyQueryMatches are about it |
| Text.SplitOn | backend/src/services/chunking.py:81 | str.split(sep) yields at least one piece, joining the pieces with sep gives back the text, no piece contains sep, and the first cut is at the leftmost occurrence of sep |
| Text.SplitFirst | backend/src/services/chunking.py:60 | the left-to-right scan makes its first cut at the leftmost occurrence, so overlapping occurrences such as "\n\n\n" split as Python splits them |
| Text.SplitPiecesFree | backend/src/services/chunking.py:69 | the pieces str.split cuts never contain the separator |
| Text.SplitJoin | backend/src/services/chunking.py:60 | splitting at a separator and joining with it is the identity, so no text is lost between paragraphs |
| Text.SliceLen | backend/src/services/retrieval.py:90 | the length of xs[:k] under Python's slice rules: min(k, n) for k >= 0, n - min(-k, n) for negative k |
| ChunkModel.CountTokens | backend/src/services/chunking.py:39-42 | the encoder's token count when an encoder is loaded, otherwise len(text) // 4 |
| ChunkModel.InitialPath | backend/src/services/chunking.py:85 | the hierarchy before the first heading (the constant InitialHierarchy) is well formed, and its breadcrumb is the front-matter title "Lời nói đầu" alone |
| ChunkModel.HierarchyPath | backend/src/services/chunking.py:44-49 | the breadcrumb is empty exactly when all four levels are unset; it starts with the chapter when the chapter is set, and is just the chapter when only the chapter is set |
| ChunkModel.HierarchyPathShape | backend/src/services/chunking.py:44-49 | with a chapter set, the breadcrumb is the chapter followed by " > " and each set deeper level, in order, with unset levels skipped |
| ChunkModel.IsHeading | backend/src/services/chunking.py:116-119 | definition: a line whose stripped form starts with '#' is a chunk boundary; Chunker.ScanHeadingAt, ScanKeepsLines and ScanBuffersHaveNoHeadings are about it |
| ChunkModel.ApplyHeading | backend/src/services/chunking.py:124-136 | definition: the hierarchy update of one stripped heading line; its properties are HeadingLevels and HeadingClearsDeeper |
| ChunkModel.HeadingLevels | backend/src/services/chunking.py:125-136 | "### " sets the subsection, "## " the section and "# " the chapter to the stripped title, each clearing every deeper level; "####" changes nothing |
| ChunkModel.HeadingClearsDeeper | backend/src/services/chunking.py:124-136 | a changed outer level always clears the deeper ones, the fourth level is never set, and other '#' lines leave the hierarchy alone |
| ChunkModel.HeadingPrefixes | backend/src/services/chunking.py:125-132 | the three heading prefixes exclude each other, so the order of the tests does not matter |
| ChunkModel.HeadingKeepsWellFormed | backend/src/services/chunking.py:119-136 | after any heading line the chapter is still non-empty and the fourth level unset |
| LongSections.Overlap | backend/src/services/chunking.py:69-70 | the overlap is "" exactly when the buffer has at most two '.'-pieces; otherwise it is the last two pieces, which hold no '.', joined by ". ", and the buffer ends with them |
| LongSections.SplitNone | backend/src/services/chunking.py:69 | a text without the separator splits into itself alone |
| LongSections.SplitLoop | backend/src/services/chunking.py:63-77 | definition: the loop over the remaining paragraphs with its running buffer, and the final flush; every sub-chunk it gives carries the section's metadata |
| LongSections.SplitSpec | backend/src/services/chunking.py:58-78 | definition: split_long_section, the loop run over content.split("\n\n") from an empty buffer; its properties are SplitCount, SplitNonEmpty and SubChunksShape |
| LongSections.BlankSubChunk | backend/src/services/chunking.py:67-75 | the guard tests the unstripped buffer, so a section whose first paragraph overflows with no '.', then an empty paragraph, then an overflowing one, yields a second sub-chunk with empty content |
| LongSections.Closes | backend/src/services/chunking.py:67 | definition: the split guard, the buffer's tokens plus the paragraph's over max_chunk_size with a non-empty unstripped buffer; SplitLoopCount and BlankSubChunk are about it |
| LongSections.SubChunk | backend/src/services/chunking.py:68 | a sub-chunk holds the stripped buffer and the section's metadata, with the token count and the length of the unstripped buffer |
| LongSections.SplitLoopStep | backend/src/services/chunking.py:63-73 | one turn of the loop: a closing paragraph emits the buffer and restarts it from the overlap, any other paragraph is appended after "\n\n" |
| LongSections.SplitLongSection | backend/src/services/chunking.py:58-78 | the paragraph loop with its running buffer produces exactly the sub-chunks of the specification SplitSpec |
| LongSections.SubChunksShape | backend/src/services/chunking.py:63-77 | every sub-chunk is made from one buffer and carries the section's metadata |
| LongSections.SplitLoopCount | backend/src/services/chunking.py:63-77 | the loop closes a sub-chunk only when a later paragraph arrives |
| LongSections.SplitCount | backend/src/services/chunking.py:58-78 | a section yields no more sub-chunks than it has paragraphs |
| LongSections.SplitLoopNonEmpty | backend/src/services/chunking.py:63-77 | while some paragraph or the buffer is not blank, the loop emits at least one sub-chunk |
| LongSections.SplitNonEmpty | backend/src/services/chunking.py:58-78 | a non-blank section is never split into nothing |
| SmallChunks.Absorb | backend/src/services/chunking.py:155-163 | the grown successor holds current + "\n\n---\n\n" + next with recounted tokens and length, and keeps its own metadata |
| SmallChunks.Absorbs | backend/src/services/chunking.py:155-156 | definition: the merge test, a current chunk under min_chunk_size whose merged text counts strictly under max_chunk_size |
| SmallChunks.MergeSpec | backend/src/services/chunking.py:148-170 | the merge never adds chunks and keeps at least one chunk of a non-empty list |
| SmallChunks.MergeSmallChunks | backend/src/services/chunking.py:148-170 | the index loop that rewrites chunks[i + 1] in place computes MergeSpec |
| SmallChunks.MergeAbsorbStep | backend/src/services/chunking.py:154-166 | absorbing chunk i into chunk i + 1 and moving on leaves the outcome of the rest unchanged |
| SmallChunks.MergeKeepStep | backend/src/services/chunking.py:168-169 | a chunk that is not absorbed is kept unchanged at the head of the output |
| SmallChunks.MergeKeepsText | backend/src/services/chunking.py:157 | joining all contents with the merge separator gives the same text before and after: nothing is lost, duplicated or reordered |
| SmallChunks.MergeKeepsOrder | backend/src/services/chunking.py:152-170 | the output metadata is a subsequence of the input's: only absorbed chunks disappear, and order is kept |
| SmallChunks.MergeBounds | backend/src/services/chunking.py:154-166 | every output chunk is an input chunk, or a merged chunk strictly under the maximum whose counts describe its new text |
| SmallChunks.MergeKeepsLast | backend/src/services/chunking.py:154 | the last chunk is never absorbed: the output ends with its metadata |
| SmallChunks.MergeChains | backend/src/services/chunking.py:160-166 | a grown chunk is examined again, so three chunks can become one |
| SmallChunks.MergeKeepsLargeHead | backend/src/services/chunking.py:154 | a first chunk that is not small stays first and unchanged |
| SmallChunks.MergeEmpty | backend/src/services/chunking.py:149 | an empty list merges to an empty list |
| Chunker.ScanSections | backend/src/services/chunking.py:115-139 | the scan yields at least one section, and the first one is read under the initial hierarchy |
| Chunker.BufferChunks | backend/src/services/chunking.py:87-112 | a buffer gives no chunk exactly when its joined text is blank, and every chunk it gives carries the current hierarchy and its breadcrumb |
| Chunker.SingleChunk | backend/src/services/chunking.py:101-112 | a buffer within the maximum, or special, gives one chunk with the stripped text, its token count and its length |
| Chunker.Emit | backend/src/services/chunking.py:87-112 | definition: the chunks of all sections in order, each section flushed through BufferChunks |
| Chunker.ChunkMarkdownSpec | backend/src/services/chunking.py:80-146 | definition: chunk_markdown as lines split at "\n", scanned into sections, emitted and merged; its properties are ChunkMetadata and EmptyDocument |
| Chunker.CreateChunkFromBuffer | backend/src/services/chunking.py:87-112 | the closure appends exactly BufferChunks |
| Chunker.ChunkMarkdown | backend/src/services/chunking.py:80-146 | the line loop with its mutable hierarchy and buffer, the final flush and the merge compute ChunkMarkdownSpec |
| Chunker.ScanHeadingAt | backend/src/services/chunking.py:119-136 | at a heading line the buffer is flushed and the scan goes on with an empty buffer under the updated hierarchy |
| Chunker.ScanPlainAt | backend/src/services/chunking.py:137-139 | any other line is appended to the buffer unchanged |
| Chunker.ScanEnd | backend/src/services/chunking.py:141 | at the end of the text the buffer is flushed once more |
| Chunker.ScanHeadingStep | backend/src/services/chunking.py:119-136 | a heading closes the buffered section and restarts under the updated hierarchy |
| Chunker.ScanPlainStep | backend/src/services/chunking.py:137-139 | a non-heading line goes into the buffer |
| Chunker.ScanKeepsLines | backend/src/services/chunking.py:115-139 | the buffers together hold every non-heading line exactly once, in document order, and no heading line |
| Chunker.ScanBuffersHaveNoHeadings | backend/src/services/chunking.py:119-139 | no buffered line is a heading |
| Chunker.ScanHierarchies | backend/src/services/chunking.py:85-136 | every section is read under a hierarchy with a chapter and no fourth level |
| Chunker.EmitMetadata | backend/src/services/chunking.py:95-97 | every emitted chunk's hierarchy_path is the breadcrumb of its own hierarchy |
| Chunker.ChunkMetadata | backend/src/services/chunking.py:80-146 | every chunk of a document has a chapter, no fourth level, and a non-empty hierarchy_path that starts with the chapter |
| Chunker.MergeMetadataFrom | backend/src/services/chunking.py:148-170 | the merge only keeps metadata that some input chunk had |
| Chunker.EmptyDocument | backend/src/services/chunking.py:80-146 | an empty document gives no chunks |
| Bm25.TokenizeAll | backend/src/services/retrieval.py:33 | one token list per document, in corpus order |
| Bm25.Lengths | backend/src/services/retrieval.py:34 | doc_len[i] is the number of tokens of document i |
| Bm25.Counters | backend/src/services/retrieval.py:42 | doc_freqs[i] counts every token of document i |
| Bm25.AverageLength | backend/src/services/retrieval.py:35 | the average length of a non-empty corpus is at least 0 |
| Bm25.DocumentFrequencies | backend/src/services/retrieval.py:36-39 | the df loop counts, for each term, the documents containing it, each document once however often the term occurs |
| Bm25.DfTable | backend/src/services/retrieval.py:36-39 | definition: the df dictionary, one entry per vocabulary term holding DocFreq; DocumentFrequencies proves the df loop builds it |
| Bm25.DocFreq | backend/src/services/retrieval.py:36-39 | definition: the number of documents containing a term, each document once; DocumentFrequencies proves the df loop computes it |
| Bm25.IdfOf | backend/src/services/retrieval.py:41 | definition: ln((N - df + 0.5) / (df + 0.5) + 1); its properties are IdfPositive and IdfDecreasing |
| Bm25.IdfTable | backend/src/services/retrieval.py:40-41 | definition: the idf entries one fit writes, one per vocabulary term; IdfFromDf and IdfTablePositive are about it |
| Bm25.DocFreqBounds | backend/src/services/retrieval.py:36-39 | df is at most the corpus size, and at least 1 exactly for vocabulary terms |
| Bm25.TermDocument | backend/src/services/retrieval.py:36-39 | every vocabulary term occurs in some document |
| Bm25.WriteIdf | backend/src/services/retrieval.py:40-41 | the idf loop overwrites the entries of the df terms and keeps every other entry |
| Bm25.IdfFromDf | backend/src/services/retrieval.py:40-41 | the entries written from df are the idf table of the corpus |
| Bm25.IdfPositive | backend/src/services/retrieval.py:41 | ln((N - df + 0.5) / (df + 0.5) + 1) > 0 for df <= N |
| Bm25.IdfDecreasing | backend/src/services/retrieval.py:41 | a term in fewer documents has a strictly larger idf |
| Bm25.IdfTablePositive | backend/src/services/retrieval.py:40-41 | every idf entry a fit writes is positive |
| Bm25.UnionPositive | backend/src/services/retrieval.py:40-41 | overwriting positive idf entries with positive ones keeps all of them positive |
| Bm25.VocabularyMeansLength | backend/src/services/retrieval.py:35 | a corpus with any vocabulary has a positive average length, so scoring it never divides by zero |
| Bm25.LengthRatio | backend/src/services/retrieval.py:53 | doc_len / avgdl is at least 0 |
| Bm25.LengthFactor | backend/src/services/retrieval.py:53 | 1 - b + b * doc_len / avgdl is positive |
| Bm25.Norm | backend/src/services/retrieval.py:53 | the length normalisation k1 * (1 - b + b * dl / avgdl) is positive, so the denominator never vanishes |
| Bm25.Saturation | backend/src/services/retrieval.py:52-54 | idf * (tf * c / (tf + K)) lies in [0, idf * c) and is 0 exactly when tf is |
| Bm25.TermScore | backend/src/services/retrieval.py:51-54 | definition: idf * (tf * (k1 + 1) / (tf + k1 * (1 - b + b * dl / avgdl))); its properties are TermScoreBounds, TermScoreMonotone and TermScoreLengthPenalty |
| Bm25.DocScore | backend/src/services/retrieval.py:47-54 | definition: a document's score, the sum over the query tokens in the idf table of their weights; its properties are the DocScore lemmas below |
| Bm25.TermScoreBounds | backend/src/services/retrieval.py:51-54 | a token's weight is in [0, idf * (k1 + 1)) and is 0 exactly when the document lacks the token |
| Bm25.TermScoreMonotone | backend/src/services/retrieval.py:51-54 | more occurrences of a token in a document weigh strictly more |
| Bm25.TermScoreLengthPenalty | backend/src/services/retrieval.py:53-54 | with b > 0, the same count weighs strictly more in a shorter document |
| Bm25.DocScoreAppend | backend/src/services/retrieval.py:47-54 | a document's score is additive over the query tokens |
| Bm25.DocScoreRepeat | backend/src/services/retrieval.py:47-54 | a repeated known query token adds its weight once per occurrence |
| Bm25.DocScoreUnknown | backend/src/services/retrieval.py:48 | query tokens outside the idf table contribute nothing |
| Bm25.DocScoreUnmatched | backend/src/services/retrieval.py:51 | a document containing none of the query tokens scores 0 |
| Bm25.DocScoreNonNegative | backend/src/services/retrieval.py:47-54 | with positive idf values every score is at least 0 |
| Bm25.SlotScore | backend/src/services/retrieval.py:46-54 | definition: the value get_scores leaves in one slot, 0 when no query token is known or the slot has no Counter, else DocScore; SlotStep, SlotSkip and BM25.GetScores are about it |
| Bm25.SlotStep | backend/src/services/retrieval.py:50-54 | scoring one more known token adds its weight to the document's slot |
| Bm25.SlotSkip | backend/src/services/retrieval.py:48 | an unknown token leaves every slot unchanged |
| Bm25.BM25.constructor | backend/src/services/retrieval.py:19-22 | a new index keeps k1 and b and is empty: size 0, avgdl 0, no documents, counters, lengths or idf |
| Bm25.BM25.Fit | backend/src/services/retrieval.py:30-42 | fit stores the corpus and its size; on a non-empty corpus it sets the lengths, their mean, the counters, and the idf table merged over the old one; an empty corpus fails at the mean with the lengths already reset |
| Bm25.BM25.Fault | backend/src/services/retrieval.py:49-54 | definition: the error get_scores meets first when a known token reaches the inner loop: IndexError without doc_len, then ZeroDivisionError for avgdl 0, then IndexError for a Counter beyond doc_len or the score array; BM25.Scores, GetScores and ScoresShape are stated through it |
| Bm25.BM25.Scores | backend/src/services/retrieval.py:44-55 | definition: get_scores as a value, the error an inconsistent index raises when a known token reaches the inner loop, otherwise DocScore per document slot; ScoresShape and Retrieval.FittedScores are about it |
| Bm25.BM25.GetScores | backend/src/services/retrieval.py:44-55 | the two nested loops over a zero array compute the specification Scores, including the error an inconsistent index raises |
| Bm25.BM25.SkipToken | backend/src/services/retrieval.py:48 | a token outside the idf table leaves the score array as it was |
| Bm25.BM25.ScoreToken | backend/src/services/retrieval.py:49-54 | the inner loop adds the token's weight to every slot, or stops with the error the index raises |
| Bm25.BM25.ScoresShape | backend/src/services/retrieval.py:44-55 | a successful get_scores returns exactly corpus_size scores, in fit order, all at least 0 |
| Fusion.Max | backend/src/services/retrieval.py:77 | max() is an element at least as large as all others |
| Fusion.Min | backend/src/services/retrieval.py:77 | min() is an element no larger than any other |
| Fusion.Normalize | backend/src/services/retrieval.py:76-78 | normalisation keeps the length of the vector |
| Fusion.NormalizeAt | backend/src/services/retrieval.py:76-78 | each entry is 0 for a constant vector and (x - min) / (max - min) otherwise |
| Fusion.Rescale | backend/src/services/retrieval.py:78 | definition: (x - min) / (max - min); its properties are RescaleShape |
| Fusion.RescaleShape | backend/src/services/retrieval.py:78 | (x - lo) / (hi - lo) maps [lo, hi] onto [0, 1], lo to 0 and hi to 1, and keeps the order both ways |
| Fusion.NormalizeBounds | backend/src/services/retrieval.py:76-78 | a constant vector normalises to zeros, and every normalised value is in [0, 1] |
| Fusion.NormalizeShape | backend/src/services/retrieval.py:78 | for a non-constant vector the minimum maps to 0 and the maximum to 1, and x <= y exactly when their images are |
| Fusion.Combine | backend/src/services/retrieval.py:89 | the weighted sum has one entry per chunk |
| Fusion.CombineBounds | backend/src/services/retrieval.py:89 | with non-negative weights, fused normalised scores lie between 0 and the sum of the weights |
| Fusion.InsertIndex | backend/src/services/retrieval.py:90 | inserting an index adds exactly that index |
| Fusion.RankPrefix | backend/src/services/retrieval.py:90 | ranking the first n indices lists each of them exactly once |
| Fusion.InsertKeepsOrder | backend/src/services/retrieval.py:90 | inserting an index keeps the list best first |
| Fusion.InsertKeepsDistinct | backend/src/services/retrieval.py:90 | inserting a new index keeps the indices distinct |
| Fusion.RankPrefixIsRanking | backend/src/services/retrieval.py:90 | every prefix ranking is best first and distinct |
| Fusion.RankOrder | backend/src/services/retrieval.py:90 | definition: np.argsort(scores)[::-1], with tied scores listed by decreasing index; RankOrderIsRanking and RankOrderTies are about it |
| Fusion.RankOrderIsRanking | backend/src/services/retrieval.py:90 | argsort reversed lists every index exactly once, by non-increasing score |
| Fusion.InsertKeepsTies | backend/src/services/retrieval.py:90 | inserting an index larger than every listed one keeps the list best first with ties by decreasing index |
| Fusion.RankPrefixTies | backend/src/services/retrieval.py:90 | every prefix ranking lists tied scores by decreasing index |
| Fusion.RankOrderTies | backend/src/services/retrieval.py:90 | the reversed argsort is best first, and equal scores are listed by decreasing index, as reversing a stable ascending argsort lists them |
| Fusion.TopIndices | backend/src/services/retrieval.py:90 | the top-k cut has the Python slice length and only valid indices |
| Fusion.TopIndicesShape | backend/src/services/retrieval.py:90 | the top-k indices are distinct and best first, and no index left out scores higher than one picked |
| Rerank.Words | backend/src/services/retrieval.py:112-113 | definition: the set of words re.findall(r'\w+', ...) finds in a text; CoverageBounds is about it |
| Rerank.Coverage | backend/src/services/retrieval.py:112-114 | definition: the share of query words found in the content, 0 for a query without words; CoverageBounds is about it |
| Rerank.DateMatch | backend/src/services/retrieval.py:116-117 | definition: some date or four-digit number found in the query occurs in the content; RerankSignals is about it |
| Rerank.RawScore | backend/src/services/retrieval.py:108-117 | definition: 0.3 for the phrase, 0.3 times the word coverage and 0.4 for a date, summed before the cap |
| Rerank.RerankScore | backend/src/services/retrieval.py:107-118 | definition: the raw score capped at 1; its properties are RerankSignals and EmptyQueryMatches |
| Rerank.CoverageBounds | backend/src/services/retrieval.py:112-114 | coverage is in [0, 1]; it is 0 exactly when no query word occurs in the content, and 1 exactly when the query has words and all of them occur |
| Rerank.RerankSignals | backend/src/services/retrieval.py:107-118 | the capped score is in [0, 1] and 0 exactly when no signal fires; a phrase match gives at least 0.3 and a date match at least 0.4; all signals with full coverage give 1 |
| Rerank.EmptyQueryMatches | backend/src/services/retrieval.py:110 | an empty query always earns the phrase bonus, since "" is in every string |
| Rerank.Annotate | backend/src/services/retrieval.py:122-125 | annotating a candidate leaves rank, id, content, metadata and the retrieval scores unchanged |
| Rerank.AnnotateScores | backend/src/services/retrieval.py:123-125 | an annotated candidate has a re-rank score in [0, 1] and final = 0.6 * combined + 0.4 * rerank, which is in [0, 1] when combined is |
| Rerank.AnnotateAll | backend/src/services/retrieval.py:122-125 | annotation keeps the number of candidates |
| Rerank.AnnotateInPlace | backend/src/services/retrieval.py:122-125 | the loop that adds the two keys to every candidate in place yields AnnotateAll of the old candidates |
| Rerank.FinalScore | backend/src/services/retrieval.py:126 | definition: the sort key x["final_score"] |
| Rerank.InsertByFinal | backend/src/services/retrieval.py:126 | inserting a candidate lengthens the list by one |
| Rerank.SortByFinal | backend/src/services/retrieval.py:126 | the sort keeps the number of candidates |
| Rerank.InsertMembers | backend/src/services/retrieval.py:126 | insertion adds exactly the inserted candidate |
| Rerank.SortMembers | backend/src/services/retrieval.py:126 | the sort keeps exactly the input's candidates |
| Rerank.InsertPermutes | backend/src/services/retrieval.py:126 | insertion adds the candidate to the multiset |
| Rerank.SortPermutes | backend/src/services/retrieval.py:126 | the sort is a permutation of its input |
| Rerank.AppendSorted | backend/src/services/retrieval.py:126 | appending a candidate that belongs last keeps the list sorted and stable |
| Rerank.InsertSorted | backend/src/services/retrieval.py:126 | inserting a later-ranked candidate keeps the list sorted and stable |
| Rerank.SortByFinalOrders | backend/src/services/retrieval.py:126 | the output is sorted by non-increasing final score, and equal final scores keep rank order (Python's stable reverse sort) |
| Rerank.InsertLands | backend/src/services/retrieval.py:126 | the inserted candidate lands after the last entry scoring at least as high |
| Rerank.ShiftLower | backend/src/services/retrieval.py:126 | the insertion pass shifts exactly the lower-scoring tail of the sorted prefix one place right |
| Rerank.InsertInPlace | backend/src/services/retrieval.py:126 | one insertion pass on the array computes InsertByFinal and leaves the unsorted rest alone |
| Rerank.SortInPlace | backend/src/services/retrieval.py:126 | the in-place sort of the candidate array computes SortByFinal |
| Rerank.Reranked | backend/src/services/retrieval.py:122-127 | definition: annotate every candidate, sort by final score, keep the first top_k; RerankedShape is about it |
| Rerank.RerankCandidates | backend/src/services/retrieval.py:122-127 | annotating, sorting in place and cutting to top_k computes Reranked |
| Rerank.RerankedShape | backend/src/services/retrieval.py:120-127 | the re-ranked list has the Python slice length of top_k, is sorted by final score with ties in rank order, and holds only annotated input candidates |
| Retrieval.ResultAt | backend/src/services/retrieval.py:94-103 | definition: the result dictionary of one chunk at one rank, with the raw scores only when details are asked for |
| Retrieval.Results | backend/src/services/retrieval.py:80-105 | definition: retrieve as a value, the results for the top_k indices of the fused scores; ResultsShape is about it |
| Retrieval.Contents | backend/src/services/retrieval.py:73 | the BM25 corpus has one text per chunk |
| Retrieval.FittedScores | backend/src/services/retrieval.py:84 | on the retriever's index get_scores always succeeds, with one score per chunk, all at least 0 |
| Retrieval.Fused | backend/src/services/retrieval.py:86-89 | the fused vector has one entry per chunk |
| Retrieval.ResultsFrom | backend/src/services/retrieval.py:93-104 | the result list has one dictionary per chosen index, in the order chosen |
| Retrieval.ResultsFromFields | backend/src/services/retrieval.py:93-104 | result j has rank j + 1 and its chunk's id, content, metadata and fused score; the raw semantic and keyword scores are present exactly when details are asked for |
| Retrieval.ResultsFromOrder | backend/src/services/retrieval.py:90-104 | with a top-k list of indices the results have distinct ids, non-increasing fused scores, and no chunk left out scores higher |
| Retrieval.ResultsShape | backend/src/services/retrieval.py:80-105 | retrieve returns min(top_k, N) results under Python slice rules, result j having rank j + 1, with distinct valid ids, non-increasing fused scores, and nothing better left out |
| Retrieval.BuildResults | backend/src/services/retrieval.py:92-105 | the result loop computes ResultsFrom |
| Retrieval.HybridRetriever.constructor | backend/src/services/retrieval.py:62-74 | the retriever keeps its chunks and weights, and its BM25 index (k1 = 1.5, b = 0.75) is fitted on the chunk texts |
| Retrieval.HybridRetriever.KeywordScores | backend/src/services/retrieval.py:84 | the keyword scores have one entry per chunk |
| Retrieval.HybridRetriever.Retrieve | backend/src/services/retrieval.py:80-105 | retrieve computes Results on the given semantic scores and the BM25 scores of the query |
| Retrieval.HybridRetriever.RetrieveWithRerank | backend/src/services/retrieval.py:120-127 | retrieve_with_rerank re-ranks retrieve's candidate_k detailed results and keeps the first top_k |

## Left out

- Saving chunks to JSON (`save_chunks_to_json`) and every `print` are left out as I/O.
- The embedding model, the query embedding, the L2 normalisation of the embedding matrix and
  the dot product are left out. These are floating-point vector work and calls into the
  embedding pipeline. Retrieval takes the semantic score of every chunk as a parameter.
  Chunk embeddings are not modelled, so the model does not check that chunks and embeddings
  are equally many.
- The foreign code that the core calls is modelled as function parameters, with no
  properties assumed:
  - the tiktoken encoder (`Tokenizer`);
  - the regular expressions of `is_special_content` (`isSpecial`);
  - `_tokenize_vietnamese` (`tokenize`);
  - the `\w+` and date patterns of the re-ranker (`findWords`, `findDates`);
  - `math.log` (`ln`), for which only the log's positivity above 1 and its monotonicity are
    required.
- str.lower is a function parameter (`lower`) of the re-ranker, because Unicode case
  mapping of Vietnamese letters is not modelled. Rerank.EmptyQueryMatches requires only that
  it maps "" to "". Strings are sequences of characters, with no normalisation.
- All real arithmetic is exact. Floating-point rounding is not modelled, for example in
  `min(score, 1.0)` or the 0.6 / 0.4 blend.
- Bm25.BM25.constructor requires k1 > 0 and 0 <= b < 1. An average length of 0 raises
  ZeroDivisionError at doc_len / avgdl before the denominator is formed. With k1 > 0 and
  0 <= b <= 1, the denominator itself is 0 only with b = 1, a positive average length, an
  empty document and a token count of 0. Outside that range the denominator can also be 0,
  which raises ZeroDivisionError at numerator / denominator. With k1 = 0 it is tf, so any
  document lacking a known query token divides by zero. With b > 1 or b < 0 the length
  factor vanishes at doc_len / avgdl = (b - 1) / b, for example b = 2, avgdl = 2,
  doc_len = 1 and tf = 0. Values outside the range can also turn weights negative.
- Fusion.Normalize requires a non-empty vector, because numpy's max() raises on an empty
  array.
- Retrieval.HybridRetriever.constructor requires at least one chunk, because np.vstack
  raises on an empty list. It also requires a log that is positive above 1.
- Retrieval.ResultsShape requires chunk ids equal to their positions. The embedding pipeline
  numbers chunks that way, and the ids are otherwise only copied into the results.
- Fusion.RankOrder: numpy documents its default argsort as not stable, so the order it gives
  tied fused scores is not specified in general. The model lists tied indices in decreasing
  order (Fusion.RankOrderTies), which is what reversing an ascending argsort that keeps equal
  keys in place gives. numpy's scalar introsort does that on short arrays, but other numpy
  builds (a vectorised sort, for example) need not. Fusion.TopIndicesShape and
  Retrieval.ResultsShape do not depend on the tie order. Retrieval.HybridRetriever.Retrieve
  and RetrieveWithRerank are stated through Results, so they fix it.
- Rerank.RerankedShape requires candidates in increasing rank order. That is how retrieve
  returns them, and the tie order of the stable sort is stated in terms of ranks.
- Rerank.FinalScore reads 0 for a candidate without a final score. No such candidate reaches
  the sort, because every candidate is annotated first.
- Bm25.BM25.GetScores models the errors an inconsistent index raises as a Failure result.
  A refit on an empty corpus raises at the mean with doc_len already reset to [], so a
  later get_scores meets the old counters and raises IndexError. A refit on documents that
  all tokenize to nothing sets avgdl to 0 while the old idf entries stay, so a known token
  raises ZeroDivisionError. On a fresh
  fit of a non-empty corpus it always succeeds (Retrieval.FittedScores).
- Bm25.BM25.Fit on an empty corpus returns false in place of raising ZeroDivisionError. It
  leaves the fields in the state Python leaves them at the raise.
- A refit keeps the idf entries of terms that the new corpus lacks, as the source does.
- `chunk_size` and `chunk_overlap` are stored but never read by the chunker; they are kept
  in the configuration.
- The constructor's default sizes (512, 64, 250 and 700) are not modelled. Every operation
  takes the configuration as a parameter, and no property depends on those values.
- split_long_section can emit a sub-chunk whose content is blank. Its guard tests the
  unstripped buffer, so an overflow with a whitespace-only buffer closes it. The model
  follows the code, and LongSections.BlankSubChunk exhibits such an input.
