/** The data of VietnameseHistoryChunker (backend/src/services/chunking.py): chunks, the
    heading hierarchy and its breadcrumb path, the chunker's settings and its token counter. */
module ChunkModel {
  import opened Text

  /** Chapter name given to text that comes before the first heading. */
  const FrontMatter: string := "Lời nói đầu"

  /** Separator of the breadcrumb built from the hierarchy levels. */
  const PathSeparator: string := " > "

  /** The four levels of the heading hierarchy; an empty string is an unset level. */
  datatype Hierarchy = Hierarchy(chapter: string, section: string, subsection: string, subsubsection: string)

  /** A chunk's metadata dictionary: the hierarchy copied at flush time plus "hierarchy_path". */
  datatype Metadata = Metadata(hierarchy: Hierarchy, hierarchyPath: string)

  datatype Chunk = Chunk(content: string, metadata: Metadata, tokenCount: nat, charCount: nat)

  /** The tiktoken encoder, or its absence when it could not be loaded. */
  datatype Tokenizer = Tiktoken(encode: string -> seq<nat>) | Unavailable

  /** The settings fixed by the chunker's constructor. chunkSize and chunkOverlap are stored
      but never read by the chunking code; isSpecial stands for the three regular expressions
      of is_special_content. */
  datatype ChunkerConfig = ChunkerConfig(
    chunkSize: int,
    chunkOverlap: int,
    minChunkSize: int,
    maxChunkSize: int,
    tokenizer: Tokenizer,
    isSpecial: string -> bool)

  /** count_tokens: the encoder's token count, or a quarter of the length rounded down. */
  function CountTokens(tokenizer: Tokenizer, text: string): (n: nat)
    ensures tokenizer.Tiktoken? ==> n == |tokenizer.encode(text)|
    ensures tokenizer.Unavailable? ==> 4 * n <= |text| < 4 * n + 4
  {
    match tokenizer
    case Tiktoken(encode) => |encode(text)|
    case Unavailable => |text| / 4
  }

  function Levels(h: Hierarchy): seq<string>
  {
    [h.chapter, h.section, h.subsection, h.subsubsection]
  }

  function NonEmpty(parts: seq<string>): (r: seq<string>)
    ensures forall i :: 0 <= i < |r| ==> r[i] != ""
    ensures |r| <= |parts|
    ensures parts != [] && parts[0] != "" ==> r != [] && r[0] == parts[0]
    ensures (forall i :: 0 <= i < |parts| ==> parts[i] == "") <==> r == []
  {
    if parts == [] then []
    else if parts[0] == "" then NonEmpty(parts[1..])
    else [parts[0]] + NonEmpty(parts[1..])
  }

  /** build_hierarchy_string: the set levels, outermost first, joined by " > ". */
  function HierarchyPath(h: Hierarchy): (path: string)
    ensures path == "" <==> Levels(h) == ["", "", "", ""]
    ensures h.chapter != "" ==> StartsWith(path, h.chapter)
    ensures Levels(h) == [h.chapter, "", "", ""] ==> path == h.chapter
  {
    var parts := NonEmpty(Levels(h));
    if parts == [] then
      assert Levels(h) == ["", "", "", ""];
      ""
    else
      JoinHead(PathSeparator, parts);
      Join(PathSeparator, parts)
  }

  /** The breadcrumb of a level below the chapter: " > " and the level when it is set,
      nothing when it is not. */
  function Crumb(level: string): string
  {
    if level == "" then "" else PathSeparator + level
  }

  /** With the chapter set, the path is the chapter followed by every set deeper level, in
      order, each after " > ". */
  lemma HierarchyPathShape(h: Hierarchy)
    requires h.chapter != ""
    ensures HierarchyPath(h) == h.chapter + Crumb(h.section) + Crumb(h.subsection) + Crumb(h.subsubsection)
  {
    var levels := [h.section, h.subsection, h.subsubsection];
    var a, b, c := Crumb(h.section), Crumb(h.subsection), Crumb(h.subsubsection);
    calc {
      HierarchyPath(h);
    == { PathFromChapter(h); }
      Join(PathSeparator, [h.chapter] + NonEmpty(levels));
    == { JoinCrumbs(h.chapter, levels); }
      h.chapter + Crumbs(levels);
    == { CrumbsOfThree(h.section, h.subsection, h.subsubsection); }
      h.chapter + (a + b + c);
    }
  }

  /** With the chapter set, the path joins the chapter with the set deeper levels. */
  lemma PathFromChapter(h: Hierarchy)
    requires h.chapter != ""
    ensures HierarchyPath(h) == Join(PathSeparator, [h.chapter] + NonEmpty([h.section, h.subsection, h.subsubsection]))
  {
    assert Levels(h)[1..] == [h.section, h.subsection, h.subsubsection];
  }

  lemma CrumbsOfThree(a: string, b: string, c: string)
    ensures Crumbs([a, b, c]) == Crumb(a) + Crumb(b) + Crumb(c)
  {
    assert [a, b, c][1..] == [b, c] && [b, c][1..] == [c] && [c][1..] == [];
    assert Crumbs([c]) == Crumb(c);
  }

  /** Every set level after the first, each written after " > ". */
  function Crumbs(levels: seq<string>): string
  {
    if levels == [] then "" else Crumb(levels[0]) + Crumbs(levels[1..])
  }

  /** Joining a first part with the set levels that follow it writes each of them after the
      separator. */
  lemma {:induction false} JoinCrumbs(first: string, levels: seq<string>)
    ensures Join(PathSeparator, [first] + NonEmpty(levels)) == first + Crumbs(levels)
    decreases |levels|
  {
    if levels != [] {
      var rest := NonEmpty(levels[1..]);
      if levels[0] != "" {
        calc {
          Join(PathSeparator, [first] + NonEmpty(levels));
        == { assert NonEmpty(levels) == [levels[0]] + rest; }
          Join(PathSeparator, [first] + ([levels[0]] + rest));
        == { JoinCons(PathSeparator, first, [levels[0]] + rest); }
          first + PathSeparator + Join(PathSeparator, [levels[0]] + rest);
        == { JoinCrumbs(levels[0], levels[1..]); }
          first + PathSeparator + (levels[0] + Crumbs(levels[1..]));
        == { assert Crumb(levels[0]) == PathSeparator + levels[0]; }
          first + (Crumb(levels[0]) + Crumbs(levels[1..]));
        }
      } else {
        assert NonEmpty(levels) == rest;
        JoinCrumbs(first, levels[1..]);
      }
    }
  }

  lemma JoinHead(sep: string, parts: seq<string>)
    requires parts != []
    ensures StartsWith(Join(sep, parts), parts[0])
  {
  }

  /** The hierarchy before the first heading. */
  const InitialHierarchy: Hierarchy := Hierarchy(FrontMatter, "", "", "")

  /** The state the scan keeps: the chapter is always set and no heading ever sets the
      fourth level. */
  predicate WellFormed(h: Hierarchy)
  {
    h.chapter != "" && h.subsubsection == ""
  }

  /** Before the first heading the text belongs to the front matter: the hierarchy is well
      formed and its breadcrumb is the front-matter title alone. */
  lemma InitialPath()
    ensures WellFormed(InitialHierarchy) && HierarchyPath(InitialHierarchy) == FrontMatter
  {
  }

  /** A line is a heading (a chunk boundary) when its stripped form starts with '#'. */
  predicate IsHeading(line: string)
  {
    StartsWith(Strip(line), "#")
  }

  /** The hierarchy update for a stripped heading line: "### " sets the subsection, "## "
      the section and "# " the chapter, each clearing the deeper levels; any other heading
      (e.g. "####" or "#x") leaves the hierarchy as it was. */
  function ApplyHeading(h: Hierarchy, heading: string): Hierarchy
  {
    if StartsWith(heading, "### ") then
      h.(subsection := Strip(heading[4..]), subsubsection := "")
    else if StartsWith(heading, "## ") then
      h.(section := Strip(heading[3..]), subsection := "", subsubsection := "")
    else if StartsWith(heading, "# ") then
      Hierarchy(Strip(heading[2..]), "", "", "")
    else
      h
  }

  /** A heading never leaves a deeper level behind a changed outer one, never sets the
      fourth level, and only the three recognised prefixes change anything. */
  lemma HeadingClearsDeeper(h: Hierarchy, heading: string)
    ensures var r := ApplyHeading(h, heading);
      (r.chapter != h.chapter ==> r.section == "" && r.subsection == "")
      && (r.section != h.section ==> r.subsection == "")
      && (r.subsubsection == "" || r == h)
      && (!StartsWith(heading, "# ") && !StartsWith(heading, "## ") && !StartsWith(heading, "### ") ==> r == h)
  {
  }

  /** The scan's state stays well-formed: a "# " heading line, once stripped, always has a
      non-blank title, so the chapter is never cleared. */
  lemma HeadingKeepsWellFormed(h: Hierarchy, line: string)
    requires WellFormed(h)
    ensures WellFormed(ApplyHeading(h, Strip(line)))
  {
    var heading := Strip(line);
    StripEnds(line);
    if StartsWith(heading, "# ") && !StartsWith(heading, "## ") && !StartsWith(heading, "### ") {
      assert |heading| > 2 by { assert IsSpace(heading[1]); }
      assert heading[2..][|heading[2..]| - 1] == heading[|heading| - 1];
      StripNonEmpty(heading[2..]);
    }
  }

  /** Each heading level sets exactly its own level to the stripped heading text. */
  lemma HeadingLevels(h: Hierarchy, heading: string)
    ensures StartsWith(heading, "### ") ==>
      ApplyHeading(h, heading) == Hierarchy(h.chapter, h.section, Strip(heading[4..]), "")
    ensures StartsWith(heading, "## ") ==>
      ApplyHeading(h, heading) == Hierarchy(h.chapter, Strip(heading[3..]), "", "")
    ensures StartsWith(heading, "# ") ==>
      ApplyHeading(h, heading) == Hierarchy(Strip(heading[2..]), "", "", "")
    ensures StartsWith(heading, "####") ==> ApplyHeading(h, heading) == h
  {
    HeadingPrefixes(heading);
  }

  /** The heading prefixes exclude each other. */
  lemma HeadingPrefixes(s: string)
    ensures StartsWith(s, "# ") ==> !StartsWith(s, "## ") && !StartsWith(s, "### ")
    ensures StartsWith(s, "## ") ==> !StartsWith(s, "### ")
    ensures StartsWith(s, "####") ==> !StartsWith(s, "# ") && !StartsWith(s, "## ") && !StartsWith(s, "### ")
  {
    if StartsWith(s, "# ") { assert s[1] == "# "[1]; }
    if StartsWith(s, "## ") { assert s[2] == "## "[2]; }
    if StartsWith(s, "####") { assert s[1] == '#' && s[2] == '#' && s[3] == '#'; }
  }
}
