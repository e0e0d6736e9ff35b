/** split_long_section (backend/src/services/chunking.py:58-78): a section whose token count
    is over the limit is cut at blank lines into sub-chunks; each new sub-chunk starts with
    the last two '.'-pieces of the one just closed. */
module LongSections {
  import opened Text
  import opened ChunkModel

  const ParagraphSeparator: string := "\n\n"

  /** The overlap carried into the next sub-chunk: when the closed buffer has more than two
      '.'-pieces, its last two pieces joined by ". " (the tail of the buffer with one space
      after the dot between them); otherwise the empty string. */
  function Overlap(buffer: string): (r: string)
    ensures r == "" <==> |SplitOn(buffer, ".")| <= 2
    ensures r != "" ==>
      exists rest, a, b :: buffer == rest + "." + a + "." + b && r == a + ". " + b && '.' !in a && '.' !in b
  {
    var pieces := SplitOn(buffer, ".");
    var n := |pieces|;
    if n > 2 then
      var a, b := pieces[n - 2], pieces[n - 1];
      assert pieces == pieces[..n - 2] + [a] + [b];
      JoinSnoc(".", pieces[..n - 2] + [a], b);
      JoinSnoc(".", pieces[..n - 2], a);
      assert pieces[n - 2..] == [a, b];
      assert Join(". ", [a, b]) == a + ". " + b by { JoinCons(". ", a, [b]); }
      assert buffer == Join(".", pieces[..n - 2]) + "." + a + "." + b;
      NoDot(a);
      NoDot(b);
      Join(". ", pieces[n - 2..])
    else
      ""
  }

  /** A piece that does not contain the string "." has no '.' character. */
  lemma NoDot(piece: string)
    requires !Contains(piece, ".")
    ensures '.' !in piece
  {
    if '.' in piece {
      var i :| 0 <= i < |piece| && piece[i] == '.';
      assert OccursAt(piece, ".", i);
    }
  }

  /** The sub-chunk made from a buffer: its stripped text, with the token count and the
      length of the buffer as it was before stripping. */
  function SubChunk(cfg: ChunkerConfig, buffer: string, meta: Metadata): (c: Chunk)
    ensures c.metadata == meta && c.content == Strip(buffer) && c.charCount == |buffer|
    ensures c.tokenCount == CountTokens(cfg.tokenizer, buffer)
  {
    Chunk(Strip(buffer), meta, CountTokens(cfg.tokenizer, buffer), |buffer|)
  }

  /** Whether the next paragraph closes the buffer: only a non-empty buffer is closed, and
      only when its tokens plus the paragraph's exceed the maximum. */
  predicate Closes(cfg: ChunkerConfig, buffer: string, para: string)
  {
    CountTokens(cfg.tokenizer, buffer) + CountTokens(cfg.tokenizer, para) > cfg.maxChunkSize
    && buffer != ""
  }

  /** The sub-chunks produced from the remaining paragraphs when the running buffer is
      `buffer`: the loop of split_long_section, followed by its final flush. */
  function SplitLoop(cfg: ChunkerConfig, paragraphs: seq<string>, buffer: string, meta: Metadata): (r: seq<Chunk>)
    ensures forall c :: c in r ==> c.metadata == meta
    decreases |paragraphs|
  {
    if paragraphs == [] then
      if Strip(buffer) != "" then [SubChunk(cfg, buffer, meta)] else []
    else
      var para := paragraphs[0];
      if Closes(cfg, buffer, para) then
        [SubChunk(cfg, buffer, meta)] + SplitLoop(cfg, paragraphs[1..], Overlap(buffer) + ParagraphSeparator + para, meta)
      else
        SplitLoop(cfg, paragraphs[1..], buffer + ParagraphSeparator + para, meta)
  }

  /** A text without the separator is a single piece. */
  lemma {:induction false} SplitNone(s: string, sep: string, cur: string)
    requires |sep| > 0 && !Contains(s, sep)
    ensures SplitFrom(s, sep, cur) == [cur + s]
    decreases |s|
  {
    if |s| >= |sep| {
      assert !OccursAt(s, sep, 0);
      if Contains(s[1..], sep) {
        var k :| 0 <= k <= |s[1..]| - |sep| && OccursAt(s[1..], sep, k);
        assert s[k + 1..k + 1 + |sep|] == s[1..][k..k + |sep|];
        assert OccursAt(s, sep, k + 1);
      }
      SplitNone(s[1..], sep, cur + [s[0]]);
      assert cur + [s[0]] + s[1..] == cur + s;
    }
  }

  /** The guard tests the buffer, not its stripped text, so a sub-chunk can be blank: after
      a first paragraph that overflows on its own and has no '.', an empty paragraph leaves
      the buffer "\n\n", which the next overflowing paragraph closes as an empty chunk. */
  lemma BlankSubChunk(cfg: ChunkerConfig, first: string, last: string, meta: Metadata)
    requires '.' !in first
    requires CountTokens(cfg.tokenizer, "") == 0
    requires CountTokens(cfg.tokenizer, ParagraphSeparator + first) > cfg.maxChunkSize
    requires CountTokens(cfg.tokenizer, ParagraphSeparator) + CountTokens(cfg.tokenizer, last) > cfg.maxChunkSize
    ensures var r := SplitLoop(cfg, [first, "", last], "", meta);
      |r| >= 2 && r[0].content == Strip(ParagraphSeparator + first) && r[1].content == ""
  {
    var buffer := ParagraphSeparator + first;
    assert '.' !in buffer by {
      forall k | 0 <= k < |buffer| ensures buffer[k] != '.' {
        if k >= 2 {
          assert buffer[k] == first[k - 2];
        }
      }
    }
    assert !Contains(buffer, ".") by {
      forall i | 0 <= i <= |buffer| - 1 ensures !OccursAt(buffer, ".", i) {
        assert buffer[i..i + 1][0] == buffer[i];
      }
    }
    SplitNone(buffer, ".", "");
    assert Overlap(buffer) == "";
    assert "" + ParagraphSeparator + first == buffer;
    assert "" + ParagraphSeparator + "" == ParagraphSeparator;
    assert [first, "", last][1..] == ["", last] && ["", last][1..] == [last];
    var tail := SplitLoop(cfg, [last], ParagraphSeparator, meta);
    assert SplitLoop(cfg, [first, "", last], "", meta) == SplitLoop(cfg, ["", last], buffer, meta);
    assert SplitLoop(cfg, ["", last], buffer, meta) == [SubChunk(cfg, buffer, meta)] + tail;
    assert tail[0] == SubChunk(cfg, ParagraphSeparator, meta);
    assert Strip(ParagraphSeparator) == "" by {
      assert AllSpace(ParagraphSeparator) by { assert IsSpace('\n'); }
      StripEmpty(ParagraphSeparator);
    }
  }

  /** What split_long_section returns for a section's content and metadata. */
  function SplitSpec(cfg: ChunkerConfig, content: string, meta: Metadata): seq<Chunk>
  {
    SplitLoop(cfg, SplitOn(content, ParagraphSeparator), "", meta)
  }

  /** split_long_section, as the source runs it: one pass over the paragraphs with a running
      buffer, closing a sub-chunk whenever the next paragraph would overflow it. */
  /** One turn of the paragraph loop. */
  lemma SplitLoopStep(cfg: ChunkerConfig, para: string, rest: seq<string>, buffer: string, meta: Metadata)
    ensures SplitLoop(cfg, [para] + rest, buffer, meta) ==
      if Closes(cfg, buffer, para) then
        [SubChunk(cfg, buffer, meta)] + SplitLoop(cfg, rest, Overlap(buffer) + ParagraphSeparator + para, meta)
      else
        SplitLoop(cfg, rest, buffer + ParagraphSeparator + para, meta)
  {
    assert ([para] + rest)[1..] == rest;
  }

  method SplitLongSection(cfg: ChunkerConfig, content: string, meta: Metadata) returns (chunks: seq<Chunk>)
    ensures chunks == SplitSpec(cfg, content, meta)
  {
    var paragraphs := SplitOn(content, ParagraphSeparator);
    chunks := [];
    var current := "";
    for i := 0 to |paragraphs|
      invariant chunks + SplitLoop(cfg, paragraphs[i..], current, meta) == SplitSpec(cfg, content, meta)
    {
      var para := paragraphs[i];
      assert paragraphs[i..] == [para] + paragraphs[i + 1..];
      SplitLoopStep(cfg, para, paragraphs[i + 1..], current, meta);
      var paraTokens := CountTokens(cfg.tokenizer, para);
      var currentTokens := CountTokens(cfg.tokenizer, current);
      if currentTokens + paraTokens > cfg.maxChunkSize && current != "" {
        chunks := chunks + [Chunk(Strip(current), meta, currentTokens, |current|)];
        current := Overlap(current) + ParagraphSeparator + para;
      } else {
        current := current + ParagraphSeparator + para;
      }
    }
    assert paragraphs[|paragraphs|..] == [];
    if Strip(current) != "" {
      var finalTokens := CountTokens(cfg.tokenizer, current);
      chunks := chunks + [Chunk(Strip(current), meta, finalTokens, |current|)];
    }
  }

  /** Every sub-chunk carries the section's metadata and is made from one buffer: its token
      count and character count are those of the buffer before stripping. */
  lemma {:induction false} SubChunksShape(cfg: ChunkerConfig, paragraphs: seq<string>, buffer: string, meta: Metadata)
    ensures forall c :: c in SplitLoop(cfg, paragraphs, buffer, meta) ==>
      exists b: string :: c == SubChunk(cfg, b, meta)
    decreases |paragraphs|
  {
    if paragraphs != [] {
      var para := paragraphs[0];
      if Closes(cfg, buffer, para) {
        SubChunksShape(cfg, paragraphs[1..], Overlap(buffer) + ParagraphSeparator + para, meta);
      } else {
        SubChunksShape(cfg, paragraphs[1..], buffer + ParagraphSeparator + para, meta);
      }
    }
  }

  /** No more sub-chunks than paragraphs: a sub-chunk is closed only when a later paragraph
      arrives, and the first paragraph never closes the (empty) initial buffer. */
  lemma {:induction false} SplitLoopCount(cfg: ChunkerConfig, paragraphs: seq<string>, buffer: string, meta: Metadata)
    ensures |SplitLoop(cfg, paragraphs, buffer, meta)| <= |paragraphs| + (if buffer == "" then 0 else 1)
    decreases |paragraphs|
  {
    if paragraphs != [] {
      var para := paragraphs[0];
      if Closes(cfg, buffer, para) {
        SplitLoopCount(cfg, paragraphs[1..], Overlap(buffer) + ParagraphSeparator + para, meta);
      } else {
        SplitLoopCount(cfg, paragraphs[1..], buffer + ParagraphSeparator + para, meta);
      }
    }
  }

  lemma SplitCount(cfg: ChunkerConfig, content: string, meta: Metadata)
    ensures |SplitSpec(cfg, content, meta)| <= |SplitOn(content, ParagraphSeparator)|
  {
    SplitLoopCount(cfg, SplitOn(content, ParagraphSeparator), "", meta);
  }

  /** If some paragraph is not blank, at least one sub-chunk is produced: either a buffer was
      closed on the way, or the final buffer still holds that paragraph. */
  lemma {:induction false} SplitLoopNonEmpty(cfg: ChunkerConfig, paragraphs: seq<string>, buffer: string, meta: Metadata)
    requires Strip(buffer) != "" || exists k :: 0 <= k < |paragraphs| && Strip(paragraphs[k]) != ""
    ensures SplitLoop(cfg, paragraphs, buffer, meta) != []
    decreases |paragraphs|
  {
    if paragraphs != [] {
      var para := paragraphs[0];
      if !Closes(cfg, buffer, para) {
        var next := buffer + ParagraphSeparator + para;
        if Strip(buffer) != "" || Strip(para) != "" {
          NotBlankExtends(buffer, para, next);
        } else {
          var k :| 0 <= k < |paragraphs| && Strip(paragraphs[k]) != "";
          assert k > 0 && Strip(paragraphs[1..][k - 1]) != "";
        }
        SplitLoopNonEmpty(cfg, paragraphs[1..], next, meta);
      }
    }
  }

  lemma NotBlankExtends(buffer: string, para: string, next: string)
    requires next == buffer + ParagraphSeparator + para
    requires Strip(buffer) != "" || Strip(para) != ""
    ensures Strip(next) != ""
  {
    StripEmpty(buffer);
    StripEmpty(para);
    StripEmpty(next);
    if Strip(buffer) != "" {
      var i :| 0 <= i < |buffer| && !IsSpace(buffer[i]);
      assert next[i] == buffer[i];
    } else {
      var i :| 0 <= i < |para| && !IsSpace(para[i]);
      assert next[|buffer| + 2 + i] == para[i];
    }
  }

  /** A content that is not blank is never split into nothing. */
  lemma SplitNonEmpty(cfg: ChunkerConfig, content: string, meta: Metadata)
    requires Strip(content) != ""
    ensures SplitSpec(cfg, content, meta) != []
  {
    var paragraphs := SplitOn(content, ParagraphSeparator);
    BlankJoin(paragraphs);
    SplitLoopNonEmpty(cfg, paragraphs, "", meta);
  }

  /** Some paragraph of a non-blank text is not blank. */
  lemma BlankJoin(parts: seq<string>)
    requires Strip(Join(ParagraphSeparator, parts)) != ""
    ensures exists k :: 0 <= k < |parts| && Strip(parts[k]) != ""
  {
    if forall k :: 0 <= k < |parts| ==> Strip(parts[k]) == "" {
      forall k | 0 <= k < |parts| ensures AllSpace(parts[k]) { StripEmpty(parts[k]); }
      AllSpaceJoin(parts);
      StripEmpty(Join(ParagraphSeparator, parts));
    }
  }

  /** Joining blank pieces with a blank separator gives a blank string. */
  lemma {:induction false} AllSpaceJoin(parts: seq<string>)
    requires forall k :: 0 <= k < |parts| ==> AllSpace(parts[k])
    ensures AllSpace(Join(ParagraphSeparator, parts))
  {
    if |parts| > 1 {
      AllSpaceJoin(parts[1..]);
      AllSpaceConcat(parts[0], ParagraphSeparator);
      AllSpaceConcat(parts[0] + ParagraphSeparator, Join(ParagraphSeparator, parts[1..]));
    }
  }

  lemma AllSpaceConcat(a: string, b: string)
    requires AllSpace(a) && AllSpace(b)
    ensures AllSpace(a + b)
  {
    forall i | 0 <= i < |a + b| ensures IsSpace((a + b)[i]) {
      if i >= |a| { assert (a + b)[i] == b[i - |a|]; }
    }
  }
}
