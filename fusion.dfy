/** Score fusion in HybridRetriever (backend/src/services/retrieval.py:76-90): min-max
    normalisation of a score vector, the weighted sum of the normalised semantic and
    keyword scores, and the descending argsort that picks the top results. */
module Fusion {
  import opened Text

  /** scores.max() */
  function Max(xs: seq<real>): (m: real)
    requires |xs| > 0
    ensures m in xs
    ensures forall i :: 0 <= i < |xs| ==> xs[i] <= m
  {
    if |xs| == 1 then xs[0]
    else
      var m := Max(xs[..|xs| - 1]);
      assert m in xs[..|xs| - 1];
      if xs[|xs| - 1] > m then xs[|xs| - 1] else m
  }

  /** scores.min() */
  function Min(xs: seq<real>): (m: real)
    requires |xs| > 0
    ensures m in xs
    ensures forall i :: 0 <= i < |xs| ==> m <= xs[i]
  {
    if |xs| == 1 then xs[0]
    else
      var m := Min(xs[..|xs| - 1]);
      assert m in xs[..|xs| - 1];
      if xs[|xs| - 1] < m then xs[|xs| - 1] else m
  }

  /** _normalize_scores: all zeros for a constant vector, otherwise (x - min) / (max - min).
      numpy's max() raises on an empty array, so the vector is non-empty. */
  function Normalize(xs: seq<real>): (r: seq<real>)
    requires |xs| > 0
    ensures |r| == |xs|
  {
    var hi, lo := Max(xs), Min(xs);
    if hi == lo then seq(|xs|, _ => 0.0)
    else seq(|xs|, i requires 0 <= i < |xs| => Rescale(xs[i], lo, hi))
  }

  /** One entry of a min-max normalisation. */
  function Rescale(x: real, lo: real, hi: real): real
    requires lo != hi
  {
    (x - lo) / (hi - lo)
  }

  /** The value of one normalised entry. */
  lemma NormalizeAt(xs: seq<real>, i: nat)
    requires i < |xs|
    ensures Min(xs) <= xs[i] <= Max(xs)
    ensures Max(xs) == Min(xs) ==> Normalize(xs)[i] == 0.0
    ensures Max(xs) != Min(xs) ==> Normalize(xs)[i] == Rescale(xs[i], Min(xs), Max(xs))
  {
  }

  /** Rescaling maps [lo, hi] onto [0, 1], lo to 0, hi to 1, and keeps the order both
      ways. */
  lemma RescaleShape(x: real, y: real, lo: real, hi: real)
    requires lo < hi && lo <= x <= hi && lo <= y <= hi
    ensures 0.0 <= Rescale(x, lo, hi) <= 1.0
    ensures Rescale(lo, lo, hi) == 0.0 && Rescale(hi, lo, hi) == 1.0
    ensures x <= y <==> Rescale(x, lo, hi) <= Rescale(y, lo, hi)
  {
    UnitFraction(x - lo, hi - lo);
    DivideOrder(x - lo, y - lo, hi - lo);
    SelfDivide(hi - lo);
  }

  /** 0 <= a / d <= 1 when 0 <= a <= d. */
  lemma UnitFraction(a: real, d: real)
    requires 0.0 <= a <= d && d > 0.0
    ensures 0.0 <= a / d <= 1.0
  {
    assert (a / d) * d == a;
  }

  /** Dividing by a positive number keeps the order both ways. */
  lemma DivideOrder(a: real, b: real, d: real)
    requires d > 0.0
    ensures a <= b <==> a / d <= b / d
  {
    assert (a / d) * d == a && (b / d) * d == b;
    assert (b / d - a / d) * d == b - a;
  }

  lemma SelfDivide(d: real)
    requires d > 0.0
    ensures d / d == 1.0
  {
  }

  /** A constant vector normalises to zeros; any vector normalises into [0, 1]. */
  lemma NormalizeBounds(xs: seq<real>)
    requires |xs| > 0
    ensures Max(xs) == Min(xs) ==> forall i :: 0 <= i < |xs| ==> Normalize(xs)[i] == 0.0
    ensures forall i :: 0 <= i < |xs| ==> 0.0 <= Normalize(xs)[i] <= 1.0
  {
    var hi, lo := Max(xs), Min(xs);
    forall i | 0 <= i < |xs| ensures 0.0 <= Normalize(xs)[i] <= 1.0 {
      NormalizeAt(xs, i);
      if hi != lo {
        RescaleShape(xs[i], xs[i], lo, hi);
      }
    }
    forall i | 0 <= i < |xs| && hi == lo ensures Normalize(xs)[i] == 0.0 {
      NormalizeAt(xs, i);
    }
  }

  /** A non-constant vector normalises its minimum to 0 and its maximum to 1, and every
      value keeps its place in the order: x <= y exactly when their images are. */
  lemma NormalizeShape(xs: seq<real>)
    requires |xs| > 0 && Max(xs) != Min(xs)
    ensures forall i :: 0 <= i < |xs| && xs[i] == Min(xs) ==> Normalize(xs)[i] == 0.0
    ensures forall i :: 0 <= i < |xs| && xs[i] == Max(xs) ==> Normalize(xs)[i] == 1.0
    ensures forall i, j :: 0 <= i < |xs| && 0 <= j < |xs| ==>
      (xs[i] <= xs[j] <==> Normalize(xs)[i] <= Normalize(xs)[j])
  {
    var hi, lo := Max(xs), Min(xs);
    var r := Normalize(xs);
    forall i, j | 0 <= i < |xs| && 0 <= j < |xs|
      ensures xs[i] == lo ==> r[i] == 0.0
      ensures xs[i] == hi ==> r[i] == 1.0
      ensures xs[i] <= xs[j] <==> r[i] <= r[j]
    {
      NormalizeAt(xs, i);
      NormalizeAt(xs, j);
      RescaleShape(xs[i], xs[j], lo, hi);
    }
  }

  /** combined_scores: the weighted sum, element by element. */
  function Combine(semanticWeight: real, semantic: seq<real>, keywordWeight: real, keyword: seq<real>): (c: seq<real>)
    requires |semantic| == |keyword|
    ensures |c| == |semantic|
  {
    seq(|semantic|, i requires 0 <= i < |semantic| => semanticWeight * semantic[i] + keywordWeight * keyword[i])
  }

  /** With non-negative weights, combining two normalised vectors gives values between 0
      and the sum of the weights; with the default weights 0.5 and 0.5, values in [0, 1]. */
  lemma CombineBounds(semanticWeight: real, semantic: seq<real>, keywordWeight: real, keyword: seq<real>)
    requires |semantic| == |keyword| && semanticWeight >= 0.0 && keywordWeight >= 0.0
    requires forall i :: 0 <= i < |semantic| ==> 0.0 <= semantic[i] <= 1.0 && 0.0 <= keyword[i] <= 1.0
    ensures forall i :: 0 <= i < |semantic| ==>
      0.0 <= Combine(semanticWeight, semantic, keywordWeight, keyword)[i] <= semanticWeight + keywordWeight
  {
    var c := Combine(semanticWeight, semantic, keywordWeight, keyword);
    forall i | 0 <= i < |semantic| ensures 0.0 <= c[i] <= semanticWeight + keywordWeight {
      ScaleUnit(semanticWeight, semantic[i]);
      ScaleUnit(keywordWeight, keyword[i]);
      AddBounds(semanticWeight * semantic[i], semanticWeight, keywordWeight * keyword[i], keywordWeight);
    }
  }

  lemma AddBounds(x: real, a: real, y: real, b: real)
    requires 0.0 <= x <= a && 0.0 <= y <= b
    ensures 0.0 <= x + y <= a + b
  {
  }

  lemma ScaleUnit(w: real, x: real)
    requires w >= 0.0 && 0.0 <= x <= 1.0
    ensures 0.0 <= w * x <= w
  {
    assert w - w * x == w * (1.0 - x);
  }

  /** `order` lists indices of `scores`, best first. */
  predicate Descending(scores: seq<real>, order: seq<nat>)
  {
    (forall a :: 0 <= a < |order| ==> order[a] < |scores|)
    && forall a, b :: 0 <= a < b < |order| ==> scores[order[a]] >= scores[order[b]]
  }

  predicate Distinct(order: seq<nat>)
  {
    forall a, b :: 0 <= a < b < |order| ==> order[a] != order[b]
  }

  /** Put index `i` into a best-first list, after every index that scores strictly better
      and before the first one that scores no better. */
  function InsertIndex(scores: seq<real>, i: nat, order: seq<nat>): (r: seq<nat>)
    requires i < |scores|
    ensures |r| == |order| + 1
    ensures forall x :: x in r <==> x == i || x in order
  {
    if order == [] then [i]
    else if order[0] < |scores| && scores[i] >= scores[order[0]] then [i] + order
    else [order[0]] + InsertIndex(scores, i, order[1..])
  }

  /** np.argsort(scores)[::-1]: every index once, best first. Indices are inserted in
      increasing order, each before the ones it ties with, so tied indices come out in
      decreasing order, which is what reversing a stable ascending argsort gives. */
  function RankOrder(scores: seq<real>): seq<nat>
  {
    RankPrefix(scores, |scores|)
  }

  function RankPrefix(scores: seq<real>, n: nat): (r: seq<nat>)
    requires n <= |scores|
    ensures |r| == n
    ensures forall x: int :: x in r <==> 0 <= x < n
  {
    if n == 0 then []
    else
      var order := RankPrefix(scores, n - 1);
      var r := InsertIndex(scores, n - 1, order);
      r
  }

  lemma {:induction false} InsertKeepsOrder(scores: seq<real>, i: nat, order: seq<nat>)
    requires i < |scores| && Descending(scores, order)
    ensures Descending(scores, InsertIndex(scores, i, order))
    decreases |order|
  {
    var r := InsertIndex(scores, i, order);
    if order != [] && !(scores[i] >= scores[order[0]]) {
      InsertKeepsOrder(scores, i, order[1..]);
      var rest := InsertIndex(scores, i, order[1..]);
      assert r == [order[0]] + rest;
      forall b | 0 < b < |r| ensures scores[r[0]] >= scores[r[b]] {
        var x := rest[b - 1];
        assert x in rest;
        if x != i {
          var k :| 0 <= k < |order[1..]| && order[1..][k] == x;
          assert order[k + 1] == x;
        }
      }
    }
  }

  lemma {:induction false} InsertKeepsDistinct(scores: seq<real>, i: nat, order: seq<nat>)
    requires i < |scores| && Distinct(order) && i !in order
    ensures Distinct(InsertIndex(scores, i, order))
    decreases |order|
  {
    if order != [] && !(order[0] < |scores| && scores[i] >= scores[order[0]]) {
      InsertKeepsDistinct(scores, i, order[1..]);
      var rest := InsertIndex(scores, i, order[1..]);
      assert order[0] !in order[1..];
      assert order[0] !in rest;
    }
  }

  lemma {:induction false} RankPrefixIsRanking(scores: seq<real>, n: nat)
    requires n <= |scores|
    ensures Descending(scores, RankPrefix(scores, n)) && Distinct(RankPrefix(scores, n))
    decreases n
  {
    if n > 0 {
      RankPrefixIsRanking(scores, n - 1);
      InsertKeepsOrder(scores, n - 1, RankPrefix(scores, n - 1));
      InsertKeepsDistinct(scores, n - 1, RankPrefix(scores, n - 1));
    }
  }

  /** The argsort is a ranking: every index exactly once, scores non-increasing. */
  lemma RankOrderIsRanking(scores: seq<real>)
    ensures |RankOrder(scores)| == |scores|
    ensures forall x: int :: x in RankOrder(scores) <==> 0 <= x < |scores|
    ensures Descending(scores, RankOrder(scores)) && Distinct(RankOrder(scores))
  {
    RankPrefixIsRanking(scores, |scores|);
  }

  /** Among equally scored indices, the larger comes first. */
  predicate TiesDecreasing(scores: seq<real>, order: seq<nat>)
  {
    forall a, b ::
      (0 <= a < b < |order| && order[a] < |scores| && order[b] < |scores| && scores[order[a]] == scores[order[b]])
      ==> order[a] > order[b]
  }

  /** Inserting an index larger than every listed one keeps ties in decreasing order. */
  lemma {:induction false} InsertKeepsTies(scores: seq<real>, i: nat, order: seq<nat>)
    requires i < |scores| && TiesDecreasing(scores, order)
    requires forall a :: 0 <= a < |order| ==> order[a] < i
    ensures TiesDecreasing(scores, InsertIndex(scores, i, order))
    decreases |order|
  {
    if order == [] {
    } else if scores[i] >= scores[order[0]] {
      TiesFront(scores, i, order);
    } else {
      InsertKeepsTies(scores, i, order[1..]);
      TiesBehind(scores, i, order, InsertIndex(scores, i, order[1..]));
    }
  }

  /** An index placed in front of smaller indices cannot break the tie order. */
  lemma TiesFront(scores: seq<real>, i: nat, order: seq<nat>)
    requires TiesDecreasing(scores, order)
    requires forall a :: 0 <= a < |order| ==> order[a] < i
    ensures TiesDecreasing(scores, [i] + order)
  {
    var r := [i] + order;
    forall a, b | 0 <= a < b < |r| && r[a] < |scores| && r[b] < |scores| && scores[r[a]] == scores[r[b]]
      ensures r[a] > r[b]
    {
      if a > 0 {
        assert r[a] == order[a - 1] && r[b] == order[b - 1];
      }
    }
  }

  /** A head that scores strictly above the inserted index and ties only with later list
      entries keeps the tie order. */
  lemma TiesBehind(scores: seq<real>, i: nat, order: seq<nat>, rest: seq<nat>)
    requires order != [] && i < |scores| && order[0] < |scores| && scores[i] < scores[order[0]]
    requires TiesDecreasing(scores, order) && TiesDecreasing(scores, rest)
    requires forall x :: x in rest <==> x == i || x in order[1..]
    ensures TiesDecreasing(scores, [order[0]] + rest)
  {
    var r := [order[0]] + rest;
    forall b | 0 < b < |r| && r[b] < |scores| && scores[r[0]] == scores[r[b]] ensures r[0] > r[b] {
      var x := rest[b - 1];
      assert x in rest;
      if x != i {
        var k :| 0 <= k < |order[1..]| && order[1..][k] == x;
        assert order[k + 1] == x;
      }
    }
    forall a, b | 0 <= a < b < |r| && r[a] < |scores| && r[b] < |scores| && scores[r[a]] == scores[r[b]]
      ensures r[a] > r[b]
    {
      if a > 0 {
        assert r[a] == rest[a - 1] && r[b] == rest[b - 1];
      }
    }
  }

  lemma {:induction false} RankPrefixTies(scores: seq<real>, n: nat)
    requires n <= |scores|
    ensures Descending(scores, RankPrefix(scores, n)) && TiesDecreasing(scores, RankPrefix(scores, n))
    decreases n
  {
    if n > 0 {
      var order := RankPrefix(scores, n - 1);
      RankPrefixTies(scores, n - 1);
      forall a | 0 <= a < |order| ensures order[a] < n - 1 {
        assert order[a] in order;
      }
      InsertKeepsOrder(scores, n - 1, order);
      InsertKeepsTies(scores, n - 1, order);
    }
  }

  /** Tied scores are listed by decreasing index, as reversing numpy's argsort gives when
      its sort keeps equal keys in place. */
  lemma RankOrderTies(scores: seq<real>)
    ensures Descending(scores, RankOrder(scores))
    ensures TiesDecreasing(scores, RankOrder(scores))
  {
    RankPrefixTies(scores, |scores|);
  }

  /** top_indices = argsort(...)[::-1][:top_k], with Python's slice bound. */
  function TopIndices(scores: seq<real>, topK: int): (top: seq<nat>)
    ensures |top| == SliceLen(|scores|, topK)
    ensures forall j :: 0 <= j < |top| ==> top[j] < |scores|
  {
    var order := RankOrder(scores);
    RankOrderIsRanking(scores);
    order[..SliceLen(|order|, topK)]
  }

  /** The top indices are SliceLen(n, top_k) distinct indices, best first, and no index
      left out scores higher than one that was picked. */
  lemma TopIndicesShape(scores: seq<real>, topK: int)
    ensures var top := TopIndices(scores, topK);
      |top| == SliceLen(|scores|, topK) && Descending(scores, top) && Distinct(top)
      && forall j, x :: 0 <= j < |top| && 0 <= x < |scores| && x !in top ==> scores[x] <= scores[top[j]]
  {
    var order := RankOrder(scores);
    RankOrderIsRanking(scores);
    var m := SliceLen(|order|, topK);
    var top := order[..m];
    forall j, x | 0 <= j < |top| && 0 <= x < |scores| && x !in top
      ensures scores[x] <= scores[top[j]]
    {
      assert x in order;
      var p :| 0 <= p < |order| && order[p] == x;
    }
  }
}
