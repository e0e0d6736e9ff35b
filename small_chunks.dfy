/** _merge_small_chunks (backend/src/services/chunking.py:148-170): a chunk under the minimum
    token count is absorbed into the chunk after it, provided the merged text stays strictly
    under the maximum; the grown chunk is examined again, so merges can chain. */
module SmallChunks {
  import opened Text
  import opened ChunkModel

  const MergeSeparator: string := "\n\n---\n\n"

  /** The successor after absorbing `current`: the two texts joined by the separator, the
      counts recomputed, the successor's own metadata kept. */
  function Absorb(cfg: ChunkerConfig, current: Chunk, next: Chunk): (r: Chunk)
    ensures r.metadata == next.metadata
    ensures r.content == current.content + MergeSeparator + next.content
    ensures r.tokenCount == CountTokens(cfg.tokenizer, r.content) && r.charCount == |r.content|
  {
    var merged := current.content + MergeSeparator + next.content;
    next.(content := merged, tokenCount := CountTokens(cfg.tokenizer, merged), charCount := |merged|)
  }

  /** The merge rule: the current chunk is small and the merged text is strictly under the
      maximum. */
  predicate Absorbs(cfg: ChunkerConfig, current: Chunk, next: Chunk)
  {
    current.tokenCount < cfg.minChunkSize
    && CountTokens(cfg.tokenizer, current.content + MergeSeparator + next.content) < cfg.maxChunkSize
  }

  /** The chunks the merge pass keeps, scanning from the front; an absorbed-into chunk takes
      the place of the pair and is examined again. */
  function MergeSpec(cfg: ChunkerConfig, chunks: seq<Chunk>): (r: seq<Chunk>)
    ensures |r| <= |chunks|
    ensures chunks != [] ==> r != []
    decreases |chunks|
  {
    if |chunks| <= 1 then chunks
    else if Absorbs(cfg, chunks[0], chunks[1]) then
      MergeSpec(cfg, [Absorb(cfg, chunks[0], chunks[1])] + chunks[2..])
    else
      [chunks[0]] + MergeSpec(cfg, chunks[1..])
  }

  /** _merge_small_chunks as the source runs it: an index loop that rewrites the successor in
      place when it absorbs the current chunk, and otherwise keeps the current chunk. */
  method MergeSmallChunks(cfg: ChunkerConfig, chunks: seq<Chunk>) returns (merged: seq<Chunk>)
    ensures merged == MergeSpec(cfg, chunks)
  {
    if chunks == [] {
      return [];
    }
    var list := chunks;
    merged := [];
    var i := 0;
    while i < |list|
      invariant 0 <= i <= |list| == |chunks|
      invariant merged + MergeSpec(cfg, list[i..]) == MergeSpec(cfg, chunks)
    {
      var current := list[i];
      if current.tokenCount < cfg.minChunkSize && i < |list| - 1 {
        var next := list[i + 1];
        var mergedContent := current.content + MergeSeparator + next.content;
        var mergedTokens := CountTokens(cfg.tokenizer, mergedContent);
        if mergedTokens < cfg.maxChunkSize {
          ghost var old_list := list;
          list := list[i + 1 := next.(content := mergedContent, tokenCount := mergedTokens, charCount := |mergedContent|)];
          MergeAbsorbStep(cfg, old_list, i, list);
          i := i + 1;
          continue;
        }
      }
      MergeKeepStep(cfg, list, i);
      assert merged + [current] + MergeSpec(cfg, list[i + 1..]) == merged + MergeSpec(cfg, list[i..]);
      merged := merged + [current];
      i := i + 1;
    }
  }

  /** Absorbing list[i] into list[i + 1] leaves the merge of the rest unchanged. */
  lemma MergeAbsorbStep(cfg: ChunkerConfig, list: seq<Chunk>, i: nat, updated: seq<Chunk>)
    requires i + 1 < |list| && Absorbs(cfg, list[i], list[i + 1])
    requires updated == list[i + 1 := Absorb(cfg, list[i], list[i + 1])]
    ensures MergeSpec(cfg, list[i..]) == MergeSpec(cfg, updated[i + 1..])
  {
    var rest := list[i + 2..];
    assert list[i..][2..] == rest;
    assert updated[i + 1..] == [Absorb(cfg, list[i], list[i + 1])] + rest;
  }

  /** A chunk that is not absorbed is kept as it is. */
  lemma MergeKeepStep(cfg: ChunkerConfig, list: seq<Chunk>, i: nat)
    requires i < |list|
    requires i + 1 == |list| || !Absorbs(cfg, list[i], list[i + 1])
    ensures MergeSpec(cfg, list[i..]) == [list[i]] + MergeSpec(cfg, list[i + 1..])
  {
    assert list[i..][1..] == list[i + 1..];
  }

  function Contents(chunks: seq<Chunk>): (r: seq<string>)
    ensures |r| == |chunks|
    ensures forall k :: 0 <= k < |chunks| ==> r[k] == chunks[k].content
  {
    if chunks == [] then [] else [chunks[0].content] + Contents(chunks[1..])
  }

  function Metas(chunks: seq<Chunk>): (r: seq<Metadata>)
    ensures |r| == |chunks|
    ensures forall k :: 0 <= k < |chunks| ==> r[k] == chunks[k].metadata
  {
    if chunks == [] then [] else [chunks[0].metadata] + Metas(chunks[1..])
  }

  /** No text is lost, duplicated or reordered: joining the contents with the merge separator
      gives the same string before and after the pass. */
  lemma {:induction false} MergeKeepsText(cfg: ChunkerConfig, chunks: seq<Chunk>)
    ensures Join(MergeSeparator, Contents(MergeSpec(cfg, chunks))) == Join(MergeSeparator, Contents(chunks))
    decreases |chunks|
  {
    if |chunks| <= 1 {
    } else if Absorbs(cfg, chunks[0], chunks[1]) {
      var a := Absorb(cfg, chunks[0], chunks[1]);
      var rest := chunks[2..];
      MergeKeepsText(cfg, [a] + rest);
      assert Contents(chunks) == [chunks[0].content, chunks[1].content] + Contents(rest);
      assert Contents([a] + rest) == [a.content] + Contents(rest);
      JoinAbsorb(chunks[0].content, chunks[1].content, Contents(rest));
    } else {
      MergeKeepsText(cfg, chunks[1..]);
      var tail := MergeSpec(cfg, chunks[1..]);
      assert Contents(chunks) == [chunks[0].content] + Contents(chunks[1..]);
      assert Contents([chunks[0]] + tail) == [chunks[0].content] + Contents(tail);
      JoinCons(MergeSeparator, chunks[0].content, Contents(tail));
      JoinCons(MergeSeparator, chunks[0].content, Contents(chunks[1..]));
    }
  }

  /** Replacing two neighbouring parts by their join does not change the joined text. */
  lemma JoinAbsorb(c0: string, c1: string, rest: seq<string>)
    ensures Join(MergeSeparator, [c0 + MergeSeparator + c1] + rest) == Join(MergeSeparator, [c0, c1] + rest)
  {
    assert [c0, c1] + rest == [c0] + ([c1] + rest);
    JoinCons(MergeSeparator, c0, [c1] + rest);
    if rest != [] {
      JoinCons(MergeSeparator, c1, rest);
      JoinCons(MergeSeparator, c0 + MergeSeparator + c1, rest);
    }
  }

  /** `a` is `b` with some elements left out, order kept. */
  predicate SubsequenceOf<T(==)>(a: seq<T>, b: seq<T>)
    decreases |b|
  {
    a == [] || (b != [] && ((a[0] == b[0] && SubsequenceOf(a[1..], b[1..])) || SubsequenceOf(a, b[1..])))
  }

  /** The output keeps the input order minus the absorbed chunks: the metadata of the kept
      chunks is a subsequence of the input's. */
  lemma {:induction false} MergeKeepsOrder(cfg: ChunkerConfig, chunks: seq<Chunk>)
    ensures SubsequenceOf(Metas(MergeSpec(cfg, chunks)), Metas(chunks))
    decreases |chunks|
  {
    var out := MergeSpec(cfg, chunks);
    if |chunks| <= 1 {
      SubsequenceRefl(Metas(chunks));
    } else if Absorbs(cfg, chunks[0], chunks[1]) {
      var a := Absorb(cfg, chunks[0], chunks[1]);
      MergeKeepsOrder(cfg, [a] + chunks[2..]);
      assert Metas([a] + chunks[2..]) == Metas(chunks)[1..];
      assert Metas(out) != [];
    } else {
      MergeKeepsOrder(cfg, chunks[1..]);
      assert Metas(out) == [chunks[0].metadata] + Metas(MergeSpec(cfg, chunks[1..]));
      assert Metas(chunks[1..]) == Metas(chunks)[1..];
    }
  }

  lemma {:induction false} SubsequenceRefl<T>(a: seq<T>)
    ensures SubsequenceOf(a, a)
    decreases |a|
  {
    if a != [] { SubsequenceRefl(a[1..]); }
  }

  /** Every chunk of the output either is an input chunk unchanged or was grown by merging,
      and then it is strictly under the maximum and its counts describe its new content. */
  lemma {:induction false} MergeBounds(cfg: ChunkerConfig, chunks: seq<Chunk>)
    ensures forall c :: c in MergeSpec(cfg, chunks) ==>
      c in chunks ||
      (c.tokenCount < cfg.maxChunkSize && c.tokenCount == CountTokens(cfg.tokenizer, c.content)
       && c.charCount == |c.content|)
    decreases |chunks|
  {
    if |chunks| <= 1 {
    } else if Absorbs(cfg, chunks[0], chunks[1]) {
      var a := Absorb(cfg, chunks[0], chunks[1]);
      MergeBounds(cfg, [a] + chunks[2..]);
      forall c | c in [a] + chunks[2..] && c != a ensures c in chunks {
        var k :| 0 <= k < |chunks[2..]| && chunks[2..][k] == c;
        assert chunks[k + 2] == c;
      }
    } else {
      MergeBounds(cfg, chunks[1..]);
      forall c | c in chunks[1..] ensures c in chunks {
        var k :| 0 <= k < |chunks[1..]| && chunks[1..][k] == c;
        assert chunks[k + 1] == c;
      }
    }
  }

  /** The last input chunk is never absorbed: the output ends with a chunk carrying its
      metadata. */
  lemma {:induction false} MergeKeepsLast(cfg: ChunkerConfig, chunks: seq<Chunk>)
    requires chunks != []
    ensures MergeSpec(cfg, chunks)[|MergeSpec(cfg, chunks)| - 1].metadata == chunks[|chunks| - 1].metadata
    decreases |chunks|
  {
    if |chunks| > 1 {
      if Absorbs(cfg, chunks[0], chunks[1]) {
        var next := [Absorb(cfg, chunks[0], chunks[1])] + chunks[2..];
        MergeKeepsLast(cfg, next);
        assert next[|next| - 1].metadata == chunks[|chunks| - 1].metadata;
      } else {
        MergeKeepsLast(cfg, chunks[1..]);
      }
    }
  }

  /** Merges chain: when the chunk grown by a first merge is still small and the next merge
      also fits, three chunks become one. */
  lemma MergeChains(cfg: ChunkerConfig, a: Chunk, b: Chunk, c: Chunk)
    requires Absorbs(cfg, a, b) && Absorbs(cfg, Absorb(cfg, a, b), c)
    ensures MergeSpec(cfg, [a, b, c]) == [Absorb(cfg, Absorb(cfg, a, b), c)]
  {
    var ab := Absorb(cfg, a, b);
    assert [a, b, c][2..] == [c];
    assert MergeSpec(cfg, [a, b, c]) == MergeSpec(cfg, [ab, c]);
    assert [ab, c][2..] == [];
  }

  /** The last chunk is never absorbed and no chunk is absorbed backwards: a single chunk, or
      a list whose first chunk is not small, keeps its first chunk in front. */
  lemma MergeKeepsLargeHead(cfg: ChunkerConfig, chunks: seq<Chunk>)
    requires chunks != [] && chunks[0].tokenCount >= cfg.minChunkSize
    ensures MergeSpec(cfg, chunks)[0] == chunks[0]
  {
  }

  lemma MergeEmpty(cfg: ChunkerConfig)
    ensures MergeSpec(cfg, []) == []
  {
  }
}
