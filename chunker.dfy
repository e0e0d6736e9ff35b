/** chunk_markdown (backend/src/services/chunking.py:80-146): the line-by-line scan that cuts
    the document at headings, keeps the heading hierarchy, flushes the buffered lines into
    chunks (splitting long ones) and finally merges small chunks forward. */
module Chunker {
  import opened Text
  import opened ChunkModel
  import opened LongSections
  import opened SmallChunks

  /** The lines between two headings, with the hierarchy that was current while they were
      read. */
  datatype Section = Section(hierarchy: Hierarchy, lines: seq<string>)

  /** The sections the scan produces from the remaining lines, given the current hierarchy
      and the lines buffered so far: every heading closes the buffer and then updates the
      hierarchy; every other line is buffered as it is. */
  function ScanSections(lines: seq<string>, h: Hierarchy, buffer: seq<string>): (r: seq<Section>)
    ensures |r| >= 1 && r[0].hierarchy == h
    decreases |lines|
  {
    if lines == [] then [Section(h, buffer)]
    else if IsHeading(lines[0]) then
      [Section(h, buffer)] + ScanSections(lines[1..], ApplyHeading(h, Strip(lines[0])), [])
    else
      ScanSections(lines[1..], h, buffer + [lines[0]])
  }

  /** create_chunk_from_buffer: nothing for an empty or blank buffer; otherwise the stripped
      text as one chunk, or split by paragraph when it is over the maximum and not special. */
  function BufferChunks(cfg: ChunkerConfig, h: Hierarchy, buffer: seq<string>): (r: seq<Chunk>)
    ensures Strip(Join("\n", buffer)) == "" <==> r == []
    ensures forall c :: c in r ==> c.metadata == Metadata(h, HierarchyPath(h))
  {
    if buffer == [] then []
    else
      var content := Strip(Join("\n", buffer));
      if content == "" then []
      else
        var meta := Metadata(h, HierarchyPath(h));
        var tokens := CountTokens(cfg.tokenizer, content);
        if tokens > cfg.maxChunkSize && !cfg.isSpecial(content) then
          StripIdempotent(Join("\n", buffer));
          SplitNonEmpty(cfg, content, meta);
          SplitSpec(cfg, content, meta)
        else
          [Chunk(content, meta, tokens, |content|)]
  }

  /** A buffer whose stripped text fits the maximum, or is special, gives exactly one chunk
      holding that text, its token count and its length. */
  lemma SingleChunk(cfg: ChunkerConfig, h: Hierarchy, buffer: seq<string>)
    requires Strip(Join("\n", buffer)) != ""
    requires var content := Strip(Join("\n", buffer));
      CountTokens(cfg.tokenizer, content) <= cfg.maxChunkSize || cfg.isSpecial(content)
    ensures var content := Strip(Join("\n", buffer));
      BufferChunks(cfg, h, buffer) ==
        [Chunk(content, Metadata(h, HierarchyPath(h)), CountTokens(cfg.tokenizer, content), |content|)]
  {
  }

  /** The chunks of all sections, in order. */
  function Emit(cfg: ChunkerConfig, sections: seq<Section>): seq<Chunk>
  {
    if sections == [] then []
    else BufferChunks(cfg, sections[0].hierarchy, sections[0].lines) + Emit(cfg, sections[1..])
  }

  /** What chunk_markdown returns for a document. */
  function ChunkMarkdownSpec(cfg: ChunkerConfig, text: string): seq<Chunk>
  {
    MergeSpec(cfg, Emit(cfg, ScanSections(SplitOn(text, "\n"), InitialHierarchy, [])))
  }

  /** The closure create_chunk_from_buffer: the chunks it appends for the current buffer. */
  method CreateChunkFromBuffer(cfg: ChunkerConfig, h: Hierarchy, buffer: seq<string>) returns (emitted: seq<Chunk>)
    ensures emitted == BufferChunks(cfg, h, buffer)
  {
    if buffer == [] {
      return [];
    }
    var content := Strip(Join("\n", buffer));
    if content == "" {
      return [];
    }
    var meta := Metadata(h, HierarchyPath(h));
    var tokenCount := CountTokens(cfg.tokenizer, content);
    if tokenCount > cfg.maxChunkSize && !cfg.isSpecial(content) {
      emitted := SplitLongSection(cfg, content, meta);
    } else {
      emitted := [Chunk(content, meta, tokenCount, |content|)];
    }
  }

  /** chunk_markdown as the source runs it: one pass over the lines with a mutable hierarchy
      and line buffer, then the merge pass. */
  method ChunkMarkdown(cfg: ChunkerConfig, text: string) returns (finalChunks: seq<Chunk>)
    ensures finalChunks == ChunkMarkdownSpec(cfg, text)
  {
    var allLines := SplitOn(text, "\n");
    var chunks: seq<Chunk> := [];
    var buffer: seq<string> := [];
    var hierarchy := InitialHierarchy;
    ghost var all := Emit(cfg, ScanSections(allLines, InitialHierarchy, []));
    for i := 0 to |allLines|
      invariant chunks + Emit(cfg, ScanSections(allLines[i..], hierarchy, buffer)) == all
    {
      var line := allLines[i];
      var stripped := Strip(line);
      if StartsWith(stripped, "#") {
        ScanHeadingAt(cfg, chunks, allLines, i, hierarchy, buffer);
        var emitted := CreateChunkFromBuffer(cfg, hierarchy, buffer);
        chunks := chunks + emitted;
        buffer := [];
        hierarchy := ApplyHeading(hierarchy, stripped);
      } else {
        ScanPlainAt(allLines, i, hierarchy, buffer);
        buffer := buffer + [line];
      }
    }
    ScanEnd(cfg, hierarchy, buffer);
    assert allLines[|allLines|..] == [];
    var emitted := CreateChunkFromBuffer(cfg, hierarchy, buffer);
    chunks := chunks + emitted;
    finalChunks := MergeSmallChunks(cfg, chunks);
  }

  /** The heading step of the loop at line `i`, with the chunks emitted so far. */
  lemma ScanHeadingAt(cfg: ChunkerConfig, chunks: seq<Chunk>, lines: seq<string>, i: nat, h: Hierarchy, buffer: seq<string>)
    requires i < |lines| && IsHeading(lines[i])
    ensures chunks + Emit(cfg, ScanSections(lines[i..], h, buffer)) ==
      chunks + BufferChunks(cfg, h, buffer) + Emit(cfg, ScanSections(lines[i + 1..], ApplyHeading(h, Strip(lines[i])), []))
  {
    assert lines[i..] == [lines[i]] + lines[i + 1..];
    ScanHeadingStep(cfg, lines[i], lines[i + 1..], h, buffer);
  }

  /** The plain-line step of the loop at line `i`. */
  lemma ScanPlainAt(lines: seq<string>, i: nat, h: Hierarchy, buffer: seq<string>)
    requires i < |lines| && !IsHeading(lines[i])
    ensures ScanSections(lines[i..], h, buffer) == ScanSections(lines[i + 1..], h, buffer + [lines[i]])
  {
    assert lines[i..] == [lines[i]] + lines[i + 1..];
    ScanPlainStep(lines[i], lines[i + 1..], h, buffer);
  }

  /** At the end of the document the buffer is flushed one last time. */
  lemma ScanEnd(cfg: ChunkerConfig, h: Hierarchy, buffer: seq<string>)
    ensures Emit(cfg, ScanSections([], h, buffer)) == BufferChunks(cfg, h, buffer)
  {
    assert [Section(h, buffer)][1..] == [];
  }

  /** A heading line closes the buffered section and restarts the scan under the updated
      hierarchy. */
  lemma ScanHeadingStep(cfg: ChunkerConfig, line: string, rest: seq<string>, h: Hierarchy, buffer: seq<string>)
    requires IsHeading(line)
    ensures ScanSections([line] + rest, h, buffer) ==
      [Section(h, buffer)] + ScanSections(rest, ApplyHeading(h, Strip(line)), [])
    ensures Emit(cfg, ScanSections([line] + rest, h, buffer)) ==
      BufferChunks(cfg, h, buffer) + Emit(cfg, ScanSections(rest, ApplyHeading(h, Strip(line)), []))
  {
    assert ([line] + rest)[1..] == rest;
    var tail := ScanSections(rest, ApplyHeading(h, Strip(line)), []);
    assert ([Section(h, buffer)] + tail)[1..] == tail;
  }

  /** Any other line is appended to the buffer. */
  lemma ScanPlainStep(line: string, rest: seq<string>, h: Hierarchy, buffer: seq<string>)
    requires !IsHeading(line)
    ensures ScanSections([line] + rest, h, buffer) == ScanSections(rest, h, buffer + [line])
  {
    assert ([line] + rest)[1..] == rest;
  }

  function Concat(sections: seq<Section>): seq<string>
  {
    if sections == [] then [] else sections[0].lines + Concat(sections[1..])
  }

  function NonHeadingLines(lines: seq<string>): seq<string>
  {
    if lines == [] then []
    else if IsHeading(lines[0]) then NonHeadingLines(lines[1..])
    else [lines[0]] + NonHeadingLines(lines[1..])
  }

  /** Heading lines never reach a buffer, and every other line reaches exactly one buffer,
      unchanged and in document order. */
  lemma {:induction false} ScanKeepsLines(lines: seq<string>, h: Hierarchy, buffer: seq<string>)
    ensures Concat(ScanSections(lines, h, buffer)) == buffer + NonHeadingLines(lines)
    decreases |lines|
  {
    if lines == [] {
      assert ScanSections(lines, h, buffer) == [Section(h, buffer)];
      assert Concat([Section(h, buffer)]) == buffer + Concat([]) by {
        assert [Section(h, buffer)][1..] == [];
      }
    } else if IsHeading(lines[0]) {
      var h' := ApplyHeading(h, Strip(lines[0]));
      var rest := ScanSections(lines[1..], h', []);
      ScanKeepsLines(lines[1..], h', []);
      assert ScanSections(lines, h, buffer) == [Section(h, buffer)] + rest;
      assert ([Section(h, buffer)] + rest)[1..] == rest;
      assert Concat([Section(h, buffer)] + rest) == buffer + Concat(rest);
      assert NonHeadingLines(lines) == NonHeadingLines(lines[1..]);
      assert [] + NonHeadingLines(lines[1..]) == NonHeadingLines(lines[1..]);
    } else {
      ScanKeepsLines(lines[1..], h, buffer + [lines[0]]);
      assert ScanSections(lines, h, buffer) == ScanSections(lines[1..], h, buffer + [lines[0]]);
      assert NonHeadingLines(lines) == [lines[0]] + NonHeadingLines(lines[1..]);
      assert buffer + [lines[0]] + NonHeadingLines(lines[1..]) == buffer + ([lines[0]] + NonHeadingLines(lines[1..]));
    }
  }

  /** No buffered line is a heading. */
  lemma {:induction false} ScanBuffersHaveNoHeadings(lines: seq<string>, h: Hierarchy, buffer: seq<string>)
    requires forall l :: l in buffer ==> !IsHeading(l)
    ensures forall s, l :: s in ScanSections(lines, h, buffer) && l in s.lines ==> !IsHeading(l)
    decreases |lines|
  {
    if lines == [] {
    } else if IsHeading(lines[0]) {
      ScanBuffersHaveNoHeadings(lines[1..], ApplyHeading(h, Strip(lines[0])), []);
    } else {
      ScanBuffersHaveNoHeadings(lines[1..], h, buffer + [lines[0]]);
    }
  }

  /** Every section is read under a well-formed hierarchy: the chapter is never empty and the
      fourth level is never set. */
  lemma {:induction false} ScanHierarchies(lines: seq<string>, h: Hierarchy, buffer: seq<string>)
    requires WellFormed(h)
    ensures forall s :: s in ScanSections(lines, h, buffer) ==> WellFormed(s.hierarchy)
    decreases |lines|
  {
    if lines == [] {
    } else if IsHeading(lines[0]) {
      HeadingKeepsWellFormed(h, lines[0]);
      ScanHierarchies(lines[1..], ApplyHeading(h, Strip(lines[0])), []);
    } else {
      ScanHierarchies(lines[1..], h, buffer + [lines[0]]);
    }
  }

  /** Every emitted chunk carries the hierarchy of its section with the matching path. */
  lemma {:induction false} EmitMetadata(cfg: ChunkerConfig, sections: seq<Section>)
    requires forall s :: s in sections ==> WellFormed(s.hierarchy)
    ensures forall c :: c in Emit(cfg, sections) ==>
      WellFormed(c.metadata.hierarchy) && c.metadata.hierarchyPath == HierarchyPath(c.metadata.hierarchy)
    decreases |sections|
  {
    if sections != [] {
      EmitMetadata(cfg, sections[1..]);
    }
  }

  /** Every chunk of the document has a well-formed hierarchy (a chapter, the front-matter
      chapter before the first heading, and no fourth level) and its hierarchy_path is the
      breadcrumb of that hierarchy, so it is never empty and starts with the chapter. */
  lemma ChunkMetadata(cfg: ChunkerConfig, text: string)
    ensures forall c :: c in ChunkMarkdownSpec(cfg, text) ==>
      WellFormed(c.metadata.hierarchy) && c.metadata.hierarchyPath == HierarchyPath(c.metadata.hierarchy)
      && c.metadata.hierarchyPath != "" && StartsWith(c.metadata.hierarchyPath, c.metadata.hierarchy.chapter)
  {
    var sections := ScanSections(SplitOn(text, "\n"), InitialHierarchy, []);
    var emitted := Emit(cfg, sections);
    ScanHierarchies(SplitOn(text, "\n"), InitialHierarchy, []);
    EmitMetadata(cfg, sections);
    MergeMetadataFrom(cfg, emitted);
  }

  /** The merge pass only keeps metadata that some input chunk had. */
  lemma {:induction false} MergeMetadataFrom(cfg: ChunkerConfig, chunks: seq<Chunk>)
    ensures forall c :: c in MergeSpec(cfg, chunks) ==> exists d :: d in chunks && d.metadata == c.metadata
    decreases |chunks|
  {
    if |chunks| <= 1 {
    } else if Absorbs(cfg, chunks[0], chunks[1]) {
      var a := Absorb(cfg, chunks[0], chunks[1]);
      MergeMetadataFrom(cfg, [a] + chunks[2..]);
      forall c | c in MergeSpec(cfg, chunks) ensures exists d :: d in chunks && d.metadata == c.metadata {
        var d :| d in [a] + chunks[2..] && d.metadata == c.metadata;
        if d == a {
          assert chunks[1] in chunks;
        } else {
          var k :| 0 <= k < |chunks[2..]| && chunks[2..][k] == d;
          assert chunks[k + 2] == d;
        }
      }
    } else {
      MergeMetadataFrom(cfg, chunks[1..]);
      forall c | c in MergeSpec(cfg, chunks) ensures exists d :: d in chunks && d.metadata == c.metadata {
        if c != chunks[0] {
          var d :| d in chunks[1..] && d.metadata == c.metadata;
          var k :| 0 <= k < |chunks[1..]| && chunks[1..][k] == d;
          assert chunks[k + 1] == d;
        }
      }
    }
  }

  /** An empty document gives no chunks. */
  lemma EmptyDocument(cfg: ChunkerConfig)
    ensures ChunkMarkdownSpec(cfg, "") == []
  {
    assert SplitOn("", "\n") == [""];
    assert !IsHeading("");
    var none: seq<string> := [];
    ScanPlainStep("", none, InitialHierarchy, none);
    assert [""] + none == [""] && none + [""] == [""];
    var sections := ScanSections([""], InitialHierarchy, []);
    assert ScanSections(none, InitialHierarchy, [""]) == [Section(InitialHierarchy, [""])];
    assert sections == [Section(InitialHierarchy, [""])];
    assert Strip(Join("\n", [""])) == "";
    assert Emit(cfg, sections) == [] by {
      assert sections[1..] == [];
    }
  }
}
