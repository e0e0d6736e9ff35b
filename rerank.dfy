/** The heuristic re-ranker of HybridRetriever (backend/src/services/retrieval.py:107-127):
    a score in [0, 1] built from a phrase match, word coverage and a date match, the final
    score that blends it with the retrieval score, and the stable sort by final score. */
module Rerank {
  import opened Text
  import opened ChunkModel

  /** One result dictionary of retrieve. semantic and keyword are present only when details
      were asked for; rerank and final are added by retrieve_with_rerank. */
  datatype Candidate = Candidate(
    rank: nat,
    chunkId: nat,
    content: string,
    metadata: Metadata,
    combined: real,
    semantic: Option<real>,
    keyword: Option<real>,
    rerank: Option<real>,
    final: Option<real>)

  const PhraseBonus: real := 0.3
  const CoverageWeight: real := 0.3
  const DateBonus: real := 0.4
  const CombinedShare: real := 0.6
  const RerankShare: real := 0.4

  /** The set of words `findWords` (re.findall(r'\w+', ...)) finds in a text. */
  function Words(findWords: string -> seq<string>, text: string): set<string>
  {
    set w | w in findWords(text)
  }

  /** The share of query words that also occur in the content; 0 for a query without
      words. */
  function Coverage(queryWords: set<string>, contentWords: set<string>): real
  {
    if queryWords == {} then 0.0
    else |queryWords * contentWords| as real / |queryWords| as real
  }

  /** Some date (or four-digit number) found in the query occurs in the content. */
  predicate DateMatch(dates: seq<string>, content: string)
  {
    exists i :: 0 <= i < |dates| && Contains(content, dates[i])
  }

  /** The three signals, before the cap at 1. */
  function RawScore(query: string, content: string, lower: string -> string, findWords: string -> seq<string>,
                    findDates: string -> seq<string>): real
  {
    var c, q := lower(content), lower(query);
    (if Contains(c, q) then PhraseBonus else 0.0)
    + CoverageWeight * Coverage(Words(findWords, q), Words(findWords, c))
    + (if DateMatch(findDates(q), c) then DateBonus else 0.0)
  }

  /** _compute_rerank_score. `lower` stands for str.lower, `findWords` for
      re.findall(r'\w+', ...) and `findDates` for the date and four-digit-number pattern,
      both applied to lower-cased text. */
  function RerankScore(query: string, content: string, lower: string -> string, findWords: string -> seq<string>,
                       findDates: string -> seq<string>): real
  {
    var score := RawScore(query, content, lower, findWords, findDates);
    if score <= 1.0 then score else 1.0
  }

  /** A subset is no larger than its superset, and equally large only when equal. */
  lemma {:induction false} SubsetSize(a: set<string>, b: set<string>)
    requires a <= b
    ensures |a| <= |b|
    ensures |a| == |b| ==> a == b
    decreases |b|
  {
    if b != {} {
      var x :| x in b;
      if x in a {
        SubsetSize(a - {x}, b - {x});
        assert a == (a - {x}) + {x} && b == (b - {x}) + {x};
      } else {
        SubsetSize(a, b - {x});
      }
    }
  }

  /** Coverage lies in [0, 1]; it is 0 exactly when no query word occurs in the content and
      1 exactly when the query has words and all of them occur in the content. */
  lemma CoverageBounds(queryWords: set<string>, contentWords: set<string>)
    ensures 0.0 <= Coverage(queryWords, contentWords) <= 1.0
    ensures Coverage(queryWords, contentWords) == 0.0 <==> queryWords * contentWords == {}
    ensures Coverage(queryWords, contentWords) == 1.0 <==> queryWords != {} && queryWords <= contentWords
  {
    if queryWords != {} {
      var common := queryWords * contentWords;
      SubsetSize(common, queryWords);
      Fraction(|common| as real, |queryWords| as real);
      if queryWords <= contentWords {
        assert common == queryWords;
      }
    }
  }

  /** A share n / d of a positive whole d, with 0 <= n <= d, lies in [0, 1]; it is 0 only
      for n == 0 and 1 only for n == d. */
  lemma Fraction(n: real, d: real)
    requires 0.0 <= n <= d && d > 0.0
    ensures 0.0 <= n / d <= 1.0
    ensures n / d == 0.0 <==> n == 0.0
    ensures n / d == 1.0 <==> n == d
  {
    assert (n / d) * d == n;
  }

  /** The re-rank score lies in [0, 1]. It is 0 exactly when no signal fires; a phrase match
      alone gives at least 0.3 and a date match alone at least 0.4; all three signals with
      every query word covered give exactly 1. */
  lemma RerankSignals(query: string, content: string, lower: string -> string, findWords: string -> seq<string>,
                      findDates: string -> seq<string>)
    ensures var r := RerankScore(query, content, lower, findWords, findDates);
      var c, q := lower(content), lower(query);
      var qw, cw := Words(findWords, q), Words(findWords, c);
      && 0.0 <= r <= 1.0
      && (r == 0.0 <==> !Contains(c, q) && qw * cw == {} && !DateMatch(findDates(q), c))
      && (Contains(c, q) ==> r >= PhraseBonus)
      && (DateMatch(findDates(q), c) ==> r >= DateBonus)
      && (Contains(c, q) && DateMatch(findDates(q), c) && qw != {} && qw <= cw ==> r == 1.0)
  {
    var c, q := lower(content), lower(query);
    CoverageBounds(Words(findWords, q), Words(findWords, c));
  }

  /** Python's `in` finds the empty string in every string, so an empty query always earns
      the phrase bonus. */
  lemma EmptyQueryMatches(content: string, lower: string -> string, findWords: string -> seq<string>,
                          findDates: string -> seq<string>)
    requires lower("") == ""
    ensures RerankScore("", content, lower, findWords, findDates) >= PhraseBonus
  {
    var c := lower(content);
    assert OccursAt(c, lower(""), 0);
    RerankSignals("", content, lower, findWords, findDates);
  }

  /** The annotation of one candidate: its re-rank score and final score are set, and
      nothing else changes. */
  function Annotate(query: string, lower: string -> string, findWords: string -> seq<string>,
                    findDates: string -> seq<string>,
                    c: Candidate): (a: Candidate)
    ensures a.rank == c.rank && a.chunkId == c.chunkId && a.content == c.content
    ensures a.metadata == c.metadata && a.combined == c.combined
    ensures a.semantic == c.semantic && a.keyword == c.keyword
  {
    var rerank := RerankScore(query, c.content, lower, findWords, findDates);
    c.(rerank := Some(rerank), final := Some(CombinedShare * c.combined + RerankShare * rerank))
  }

  /** An annotated candidate's final score blends the retrieval score and a re-rank score in
      [0, 1]; with a retrieval score in [0, 1] it is in [0, 1] as well. */
  lemma AnnotateScores(query: string, lower: string -> string, findWords: string -> seq<string>,
                       findDates: string -> seq<string>,
                       c: Candidate)
    ensures var a := Annotate(query, lower, findWords, findDates, c);
      a.rerank.Some? && a.final.Some?
      && 0.0 <= a.rerank.value <= 1.0
      && a.final.value == 0.6 * c.combined + 0.4 * a.rerank.value
      && (0.0 <= c.combined <= 1.0 ==> 0.0 <= a.final.value <= 1.0)
  {
    RerankSignals(query, c.content, lower, findWords, findDates);
  }

  function AnnotateAll(query: string, lower: string -> string, findWords: string -> seq<string>,
                       findDates: string -> seq<string>,
                       cs: seq<Candidate>): (r: seq<Candidate>)
    ensures |r| == |cs|
  {
    seq(|cs|, i requires 0 <= i < |cs| => Annotate(query, lower, findWords, findDates, cs[i]))
  }

  /** The loop of retrieve_with_rerank that adds rerank_score and final_score to every
      candidate dictionary in place. */
  method AnnotateInPlace(query: string, lower: string -> string, findWords: string -> seq<string>,
                         findDates: string -> seq<string>,
                         a: array<Candidate>)
    modifies a
    ensures a[..] == AnnotateAll(query, lower, findWords, findDates, old(a[..]))
  {
    for i := 0 to a.Length
      invariant a[..i] == AnnotateAll(query, lower, findWords, findDates, old(a[..]))[..i]
      invariant a[i..] == old(a[..])[i..]
    {
      a[i] := Annotate(query, lower, findWords, findDates, a[i]);
    }
  }

  /** The sort key x["final_score"]; only read once every candidate has been annotated. */
  function FinalScore(c: Candidate): real
  {
    if c.final.Some? then c.final.value else 0.0
  }

  /** Insert `c` into a list sorted by decreasing final score, after every element whose
      final score is at least as high. */
  function InsertByFinal(sorted: seq<Candidate>, c: Candidate): (r: seq<Candidate>)
    ensures |r| == |sorted| + 1
  {
    if sorted == [] || FinalScore(sorted[|sorted| - 1]) >= FinalScore(c) then sorted + [c]
    else
      var init, last := sorted[..|sorted| - 1], sorted[|sorted| - 1];
      assert sorted == init + [last];
      InsertByFinal(init, c) + [last]
  }

  /** list.sort(key=final_score, reverse=True): Python's sort is stable, also in reverse,
      so candidates with equal final scores keep their order. */
  function SortByFinal(cs: seq<Candidate>): (r: seq<Candidate>)
    ensures |r| == |cs|
  {
    if cs == [] then []
    else
      var init, last := cs[..|cs| - 1], cs[|cs| - 1];
      assert cs == init + [last];
      InsertByFinal(SortByFinal(init), last)
  }

  lemma {:induction false} InsertMembers(sorted: seq<Candidate>, c: Candidate)
    ensures forall x :: x in InsertByFinal(sorted, c) <==> x == c || x in sorted
    decreases |sorted|
  {
    if sorted != [] && FinalScore(sorted[|sorted| - 1]) < FinalScore(c) {
      var init, last := sorted[..|sorted| - 1], sorted[|sorted| - 1];
      assert sorted == init + [last];
      InsertMembers(init, c);
    }
  }

  lemma {:induction false} SortMembers(cs: seq<Candidate>)
    ensures forall x :: x in SortByFinal(cs) <==> x in cs
    decreases |cs|
  {
    if cs != [] {
      var init, last := cs[..|cs| - 1], cs[|cs| - 1];
      assert cs == init + [last];
      SortMembers(init);
      InsertMembers(SortByFinal(init), last);
    }
  }

  lemma {:induction false} InsertPermutes(sorted: seq<Candidate>, c: Candidate)
    ensures multiset(InsertByFinal(sorted, c)) == multiset(sorted) + multiset{c}
    decreases |sorted|
  {
    if sorted != [] && FinalScore(sorted[|sorted| - 1]) < FinalScore(c) {
      var init, last := sorted[..|sorted| - 1], sorted[|sorted| - 1];
      assert sorted == init + [last];
      InsertPermutes(init, c);
    }
  }

  /** The sort is a permutation of its input. */
  lemma {:induction false} SortPermutes(cs: seq<Candidate>)
    ensures multiset(SortByFinal(cs)) == multiset(cs)
    decreases |cs|
  {
    if cs != [] {
      var init, last := cs[..|cs| - 1], cs[|cs| - 1];
      assert cs == init + [last];
      SortPermutes(init);
      InsertPermutes(SortByFinal(init), last);
    }
  }

  predicate SortedByFinal(cs: seq<Candidate>)
  {
    forall i, j :: 0 <= i < j < |cs| ==> FinalScore(cs[i]) >= FinalScore(cs[j])
  }

  /** Among equal final scores, ranks increase. */
  predicate TiesByRank(cs: seq<Candidate>)
  {
    forall i, j :: 0 <= i < j < |cs| && FinalScore(cs[i]) == FinalScore(cs[j]) ==> cs[i].rank < cs[j].rank
  }

  predicate RanksIncrease(cs: seq<Candidate>)
  {
    forall i, j :: 0 <= i < j < |cs| ==> cs[i].rank < cs[j].rank
  }

  /** Appending a candidate that ranks after everything already in a sorted list keeps it
      sorted. */
  lemma AppendSorted(r: seq<Candidate>, c: Candidate)
    requires SortedByFinal(r) && TiesByRank(r)
    requires forall i :: 0 <= i < |r| ==> FinalScore(r[i]) >= FinalScore(c)
    requires forall i :: 0 <= i < |r| && FinalScore(r[i]) == FinalScore(c) ==> r[i].rank < c.rank
    ensures SortedByFinal(r + [c]) && TiesByRank(r + [c])
  {
    var s := r + [c];
    forall i, j | 0 <= i < j < |s|
      ensures FinalScore(s[i]) >= FinalScore(s[j])
      ensures FinalScore(s[i]) == FinalScore(s[j]) ==> s[i].rank < s[j].rank
    {
      if j < |r| {
        assert s[i] == r[i] && s[j] == r[j];
      } else {
        assert s[i] == r[i] && s[j] == c;
      }
    }
  }

  lemma {:induction false} InsertSorted(sorted: seq<Candidate>, c: Candidate)
    requires SortedByFinal(sorted) && TiesByRank(sorted)
    requires forall x :: x in sorted ==> x.rank < c.rank
    ensures SortedByFinal(InsertByFinal(sorted, c)) && TiesByRank(InsertByFinal(sorted, c))
    decreases |sorted|
  {
    if sorted == [] || FinalScore(sorted[|sorted| - 1]) >= FinalScore(c) {
      forall i | 0 <= i < |sorted| ensures FinalScore(sorted[i]) >= FinalScore(c) {
        assert FinalScore(sorted[i]) >= FinalScore(sorted[|sorted| - 1]);
      }
      forall i | 0 <= i < |sorted| ensures sorted[i].rank < c.rank {
        assert sorted[i] in sorted;
      }
      AppendSorted(sorted, c);
    } else {
      var init, last := sorted[..|sorted| - 1], sorted[|sorted| - 1];
      assert SortedByFinal(init) && TiesByRank(init);
      InsertSorted(init, c);
      var r0 := InsertByFinal(init, c);
      InsertMembers(init, c);
      forall i | 0 <= i < |r0|
        ensures FinalScore(r0[i]) >= FinalScore(last)
        ensures FinalScore(r0[i]) == FinalScore(last) ==> r0[i].rank < last.rank
      {
        assert r0[i] in r0;
        if r0[i] != c {
          var k :| 0 <= k < |init| && init[k] == r0[i];
          assert sorted[k] == init[k];
        }
      }
      AppendSorted(r0, last);
    }
  }

  /** The sort's output is ordered by non-increasing final score, and, for candidates that
      arrive in rank order, candidates with equal final scores stay in rank order. */
  lemma {:induction false} SortByFinalOrders(cs: seq<Candidate>)
    requires RanksIncrease(cs)
    ensures SortedByFinal(SortByFinal(cs)) && TiesByRank(SortByFinal(cs))
    decreases |cs|
  {
    if cs != [] {
      var init, last := cs[..|cs| - 1], cs[|cs| - 1];
      assert RanksIncrease(init);
      SortByFinalOrders(init);
      var s := SortByFinal(init);
      SortMembers(init);
      forall x | x in s ensures x.rank < last.rank {
        var k :| 0 <= k < |init| && init[k] == x;
        assert cs[k] == init[k];
      }
      InsertSorted(s, last);
    }
  }

  /** Where the insertion lands: after the last element whose final score is at least as
      high, before the run of lower ones that follows it. */
  lemma {:induction false} InsertLands(sorted: seq<Candidate>, j: nat, c: Candidate)
    requires j <= |sorted| && (j == 0 || FinalScore(sorted[j - 1]) >= FinalScore(c))
    requires forall k :: j <= k < |sorted| ==> FinalScore(sorted[k]) < FinalScore(c)
    ensures InsertByFinal(sorted, c) == sorted[..j] + [c] + sorted[j..]
    decreases |sorted|
  {
    var n := |sorted|;
    if j < n {
      var init, last := sorted[..n - 1], sorted[n - 1];
      assert FinalScore(last) < FinalScore(c);
      assert InsertByFinal(sorted, c) == InsertByFinal(init, c) + [last];
      assert j == 0 || init[j - 1] == sorted[j - 1];
      assert forall k :: j <= k < |init| ==> init[k] == sorted[k];
      InsertLands(init, j, c);
      assert init[..j] == sorted[..j];
      assert init[j..] + [last] == sorted[j..];
    } else {
      assert sorted[..j] == sorted && sorted[j..] == [];
    }
  }

  /** The shifting loop of one insertion pass: the elements of the sorted prefix a[..i]
      whose final score is lower than c's move one place right, leaving a gap at j. */
  method ShiftLower(a: array<Candidate>, i: nat, c: Candidate) returns (j: nat)
    requires i < a.Length
    modifies a
    ensures j <= i
    ensures forall k :: 0 <= k < j ==> a[k] == old(a[k])
    ensures forall k :: j < k <= i ==> a[k] == old(a[k - 1])
    ensures forall k :: i < k < a.Length ==> a[k] == old(a[k])
    ensures j == 0 || FinalScore(old(a[j - 1])) >= FinalScore(c)
    ensures forall k :: j <= k < i ==> FinalScore(old(a[k])) < FinalScore(c)
  {
    j := i;
    while j > 0 && FinalScore(a[j - 1]) < FinalScore(c)
      invariant 0 <= j <= i
      invariant forall k :: 0 <= k < j ==> a[k] == old(a[k])
      invariant forall k :: j < k <= i ==> a[k] == old(a[k - 1])
      invariant forall k :: i < k < a.Length ==> a[k] == old(a[k])
      invariant forall k :: j <= k < i ==> FinalScore(old(a[k])) < FinalScore(c)
    {
      a[j] := a[j - 1];
      j := j - 1;
    }
  }

  /** One pass of the insertion sort: a[i] moves left past the elements of the sorted
      prefix a[..i] whose final score is lower. */
  method InsertInPlace(a: array<Candidate>, i: nat)
    requires i < a.Length
    modifies a
    ensures a[..i + 1] == InsertByFinal(old(a[..i]), old(a[i]))
    ensures a[i + 1..] == old(a[i + 1..])
  {
    ghost var before := a[..];
    var c := a[i];
    var j := ShiftLower(a, i, c);
    InsertLands(before[..i], j, c);
    a[j] := c;
    FillGap(before, a[..], i, j, c);
  }

  /** The array after the shift and the write of c at the gap, as sequences. */
  lemma FillGap(before: seq<Candidate>, after: seq<Candidate>, i: nat, j: nat, c: Candidate)
    requires j <= i < |before| == |after| && after[j] == c
    requires forall k :: 0 <= k < j ==> after[k] == before[k]
    requires forall k :: j < k <= i ==> after[k] == before[k - 1]
    requires forall k :: i < k < |after| ==> after[k] == before[k]
    ensures after[..i + 1] == before[..i][..j] + [c] + before[..i][j..]
    ensures after[i + 1..] == before[i + 1..]
  {
  }

  /** The in-place stable insertion sort by decreasing final score. */
  method SortInPlace(a: array<Candidate>)
    modifies a
    ensures a[..] == SortByFinal(old(a[..]))
  {
    ghost var input := a[..];
    for i := 0 to a.Length
      invariant a[..i] == SortByFinal(input[..i])
      invariant a[i..] == input[i..]
    {
      assert input[..i + 1][..i] == input[..i];
      assert a[i] == input[i];
      InsertInPlace(a, i);
    }
    assert input[..a.Length] == input;
  }

  /** What retrieve_with_rerank does to retrieve's candidates: annotate, sort, keep the
      first top_k. */
  function Reranked(query: string, lower: string -> string, findWords: string -> seq<string>,
                    findDates: string -> seq<string>,
                    cs: seq<Candidate>, topK: int): seq<Candidate>
  {
    var sorted := SortByFinal(AnnotateAll(query, lower, findWords, findDates, cs));
    sorted[..SliceLen(|sorted|, topK)]
  }

  /** The body of retrieve_with_rerank after retrieval: the candidate list is annotated and
      sorted in place, then cut to top_k. */
  method RerankCandidates(query: string, lower: string -> string, findWords: string -> seq<string>,
                          findDates: string -> seq<string>,
                          candidates: seq<Candidate>, topK: int) returns (r: seq<Candidate>)
    ensures r == Reranked(query, lower, findWords, findDates, candidates, topK)
  {
    var a := new Candidate[|candidates|](i requires 0 <= i < |candidates| => candidates[i]);
    assert a[..] == candidates;
    AnnotateInPlace(query, lower, findWords, findDates, a);
    SortInPlace(a);
    ghost var sorted := SortByFinal(AnnotateAll(query, lower, findWords, findDates, candidates));
    assert a[..] == sorted;
    r := a[..SliceLen(a.Length, topK)];
  }

  /** The re-ranked list has min(top_k, |candidates|) entries (Python slice bounds), ordered
      by non-increasing final score with ties in rank order; each entry is an input candidate
      with its rank, id, content, metadata, combined, semantic and keyword fields unchanged
      and its final score the 0.6 / 0.4 blend. */
  lemma RerankedShape(query: string, lower: string -> string, findWords: string -> seq<string>,
                      findDates: string -> seq<string>,
                      cs: seq<Candidate>, topK: int)
    requires RanksIncrease(cs)
    ensures var r := Reranked(query, lower, findWords, findDates, cs, topK);
      && |r| == SliceLen(|cs|, topK)
      && SortedByFinal(r) && TiesByRank(r)
      && forall i :: 0 <= i < |r| ==>
           exists k :: 0 <= k < |cs| && r[i] == Annotate(query, lower, findWords, findDates, cs[k])
  {
    var annotated := AnnotateAll(query, lower, findWords, findDates, cs);
    forall i, j | 0 <= i < j < |annotated| ensures annotated[i].rank < annotated[j].rank {
      assert annotated[i].rank == cs[i].rank && annotated[j].rank == cs[j].rank;
    }
    SortByFinalOrders(annotated);
    var sorted := SortByFinal(annotated);
    SortMembers(annotated);
    var r := Reranked(query, lower, findWords, findDates, cs, topK);
    forall i | 0 <= i < |r|
      ensures exists k :: 0 <= k < |cs| && r[i] == Annotate(query, lower, findWords, findDates, cs[k])
    {
      assert r[i] == sorted[i] && sorted[i] in sorted;
      var k :| 0 <= k < |annotated| && annotated[k] == sorted[i];
      assert annotated[k] == Annotate(query, lower, findWords, findDates, cs[k]);
    }
  }
}
