/** Python string and list built-ins that the chunker and the retriever rely on:
    str.strip, str.startswith, the `in` substring test, str.split with a separator,
    str.join, list slicing and sum(). */
module Text {

  datatype Option<T> = None | Some(value: T)

  /** The characters Python's str.isspace accepts (and str.strip removes). */
  predicate IsSpace(c: char)
  {
    c == ' ' || ('\t' <= c <= '\r') || ('\U{1C}' <= c <= '\U{1F}') ||
    c == '\U{85}' || c == '\U{A0}' || c == '\U{1680}' ||
    ('\U{2000}' <= c <= '\U{200A}') || c == '\U{2028}' || c == '\U{2029}' ||
    c == '\U{202F}' || c == '\U{205F}' || c == '\U{3000}'
  }

  predicate AllSpace(s: string)
  {
    forall i :: 0 <= i < |s| ==> IsSpace(s[i])
  }

  /** Leading whitespace removed. */
  function TrimStart(s: string): string
  {
    if |s| > 0 && IsSpace(s[0]) then TrimStart(s[1..]) else s
  }

  /** Trailing whitespace removed. */
  function TrimEnd(s: string): string
  {
    if |s| > 0 && IsSpace(s[|s| - 1]) then TrimEnd(s[..|s| - 1]) else s
  }

  /** str.strip() */
  function Strip(s: string): string
  {
    TrimEnd(TrimStart(s))
  }

  /** TrimStart keeps the suffix after a run of whitespace, and that suffix does not start
      with whitespace. */
  lemma {:induction false} TrimStartShape(s: string)
    ensures var r := TrimStart(s);
      |r| <= |s| && r == s[|s| - |r|..] && (r == [] || !IsSpace(r[0])) && AllSpace(s[..|s| - |r|])
    decreases |s|
  {
    if |s| > 0 && IsSpace(s[0]) {
      TrimStartShape(s[1..]);
      var r := TrimStart(s[1..]);
      assert s[1..][|s[1..]| - |r|..] == s[|s| - |r|..];
      var p, q := s[..|s| - |r|], s[1..][..|s[1..]| - |r|];
      forall i | 0 <= i < |p| ensures IsSpace(p[i]) {
        if i > 0 { assert p[i] == q[i - 1]; }
      }
    }
  }

  /** TrimEnd keeps the prefix before a run of whitespace, and that prefix does not end with
      whitespace. */
  lemma {:induction false} TrimEndShape(s: string)
    ensures var r := TrimEnd(s);
      |r| <= |s| && r == s[..|r|] && (r == [] || !IsSpace(r[|r| - 1])) && AllSpace(s[|r|..])
    decreases |s|
  {
    if |s| > 0 && IsSpace(s[|s| - 1]) {
      var t := s[..|s| - 1];
      TrimEndShape(t);
      var r := TrimEnd(t);
      assert t[..|r|] == s[..|r|];
      var p, q := s[|r|..], t[|r|..];
      forall i | 0 <= i < |p| ensures IsSpace(p[i]) {
        if i < |q| { assert p[i] == q[i]; }
      }
    }
  }

  /** A stripped string neither starts nor ends with whitespace. */
  lemma StripEnds(s: string)
    ensures var r := Strip(s); r == [] || (!IsSpace(r[0]) && !IsSpace(r[|r| - 1]))
  {
    var t := TrimStart(s);
    TrimStartShape(s);
    TrimEndShape(t);
    var r := TrimEnd(t);
    if r != [] {
      assert r[0] == t[0];
    }
  }

  /** Strip removes only surrounding whitespace: it is a slice of its input. */
  lemma StripIsSlice(s: string)
    ensures exists i, j :: 0 <= i <= j <= |s| && Strip(s) == s[i..j]
  {
    var t := TrimStart(s);
    TrimStartShape(s);
    TrimEndShape(t);
    var r := TrimEnd(t);
    assert r == s[|s| - |t|..|s| - |t| + |r|];
  }

  /** A string strips to nothing exactly when it is all whitespace. */
  lemma StripEmpty(s: string)
    ensures Strip(s) == [] <==> AllSpace(s)
  {
    var t := TrimStart(s);
    TrimStartShape(s);
    TrimEndShape(t);
    var r := TrimEnd(t);
    if r == [] {
      assert t == [] by { assert AllSpace(t[0..]); }
      assert s[..|s| - |t|] == s;
    } else {
      assert r[0] == t[0];
      assert t[0] == s[|s| - |t|];
    }
  }

  /** Stripping twice is stripping once. */
  lemma StripIdempotent(s: string)
    ensures Strip(Strip(s)) == Strip(s)
  {
    var t := Strip(s);
    StripEnds(s);
    if t != [] {
      assert TrimStart(t) == t;
      assert TrimEnd(t) == t;
    }
  }

  /** A string that ends with a non-space character strips to a non-empty string. */
  lemma StripNonEmpty(s: string)
    requires |s| > 0 && !IsSpace(s[|s| - 1])
    ensures Strip(s) != []
  {
    StripEmpty(s);
  }

  /** str.startswith(prefix) */
  predicate StartsWith(s: string, prefix: string)
  {
    |prefix| <= |s| && s[..|prefix|] == prefix
  }

  /** Python's `sub in s` on strings. */
  predicate Contains(s: string, sub: string)
  {
    exists i :: 0 <= i <= |s| - |sub| && OccursAt(s, sub, i)
  }

  predicate OccursAt(s: string, sub: string, i: int)
  {
    0 <= i <= |s| - |sub| && s[i..i + |sub|] == sub
  }

  /** str.join: the parts with `sep` between each neighbouring pair. */
  function Join(sep: string, parts: seq<string>): (r: string)
    ensures |parts| == 1 ==> r == parts[0]
    ensures parts == [] ==> r == ""
  {
    if |parts| == 0 then ""
    else if |parts| == 1 then parts[0]
    else parts[0] + sep + Join(sep, parts[1..])
  }

  /** Joining after putting one more part in front adds that part and one separator. */
  lemma JoinCons(sep: string, p: string, parts: seq<string>)
    requires parts != []
    ensures Join(sep, [p] + parts) == p + sep + Join(sep, parts)
  {
    assert ([p] + parts)[1..] == parts;
  }

  /** Joining after appending one more part adds one separator and that part. */
  lemma {:induction false} JoinSnoc(sep: string, parts: seq<string>, p: string)
    requires parts != []
    ensures Join(sep, parts + [p]) == Join(sep, parts) + sep + p
  {
    if |parts| == 1 {
      assert parts + [p] == [parts[0], p];
      assert [parts[0], p][1..] == [p];
    } else {
      assert (parts + [p])[1..] == parts[1..] + [p];
      JoinSnoc(sep, parts[1..], p);
    }
  }

  /** The pieces of `s` split at every non-overlapping occurrence of `sep`, scanning left to
      right, where `cur` is the piece collected so far. */
  function SplitFrom(s: string, sep: string, cur: string): (r: seq<string>)
    requires |sep| > 0
    ensures |r| >= 1
    decreases |s|
  {
    if |s| < |sep| then [cur + s]
    else if s[..|sep|] == sep then [cur] + SplitFrom(s[|sep|..], sep, "")
    else SplitFrom(s[1..], sep, cur + [s[0]])
  }

  /** str.split(sep) for a non-empty separator: the pieces between the occurrences of sep,
      none of which contains sep. */
  function SplitOn(s: string, sep: string): (r: seq<string>)
    requires |sep| > 0
    ensures |r| >= 1
    ensures Join(sep, r) == s
    ensures forall i :: 0 <= i < |r| ==> !Contains(r[i], sep)
    ensures |r| > 1 ==> |r[0]| + |sep| <= |s| && r[0] == s[..|r[0]|] && OccursAt(s, sep, |r[0]|)
    ensures |r| > 1 ==> forall k :: 0 <= k < |r[0]| ==> !OccursAt(s, sep, k)
  {
    SplitJoin(s, sep, "");
    SplitPiecesFree(s, sep, "");
    SplitFirst(s, sep, "");
    assert "" + s == s;
    SplitFrom(s, sep, "")
  }

  /** The first cut is at the leftmost occurrence of the separator: the first piece is the
      text before it, so overlapping occurrences are resolved from the left. */
  lemma {:induction false} SplitFirst(s: string, sep: string, cur: string)
    requires |sep| > 0
    requires forall k :: 0 <= k < |cur| ==> !OccursAt(cur + s, sep, k)
    ensures var r := SplitFrom(s, sep, cur);
      |r| > 1 ==>
        && |r[0]| + |sep| <= |cur + s|
        && r[0] == (cur + s)[..|r[0]|]
        && OccursAt(cur + s, sep, |r[0]|)
        && (forall k :: 0 <= k < |r[0]| ==> !OccursAt(cur + s, sep, k))
    decreases |s|
  {
    if |s| < |sep| {
    } else if s[..|sep|] == sep {
      assert SplitFrom(s, sep, cur)[0] == cur;
      assert (cur + s)[|cur|..|cur| + |sep|] == s[..|sep|];
    } else {
      var next := cur + [s[0]];
      assert next + s[1..] == cur + s;
      forall k | 0 <= k < |next| ensures !OccursAt(next + s[1..], sep, k) {
        if k == |cur| {
          assert (cur + s)[k..k + |sep|] == s[..|sep|];
        }
      }
      SplitFirst(s[1..], sep, next);
    }
  }

  /** The left-to-right scan cuts at the first occurrence it meets, so no piece contains
      the separator, provided no occurrence starts inside the piece collected so far. */
  lemma {:induction false} SplitPiecesFree(s: string, sep: string, cur: string)
    requires |sep| > 0
    requires forall k :: 0 <= k < |cur| ==> !OccursAt(cur + s, sep, k)
    ensures forall i :: 0 <= i < |SplitFrom(s, sep, cur)| ==> !Contains(SplitFrom(s, sep, cur)[i], sep)
    decreases |s|
  {
    var r := SplitFrom(s, sep, cur);
    if |s| < |sep| {
      assert r == [cur + s];
    } else if s[..|sep|] == sep {
      var rest := SplitFrom(s[|sep|..], sep, "");
      SplitPiecesFree(s[|sep|..], sep, "");
      assert r == [cur] + rest;
      if Contains(cur, sep) {
        var k :| 0 <= k <= |cur| - |sep| && OccursAt(cur, sep, k);
        assert (cur + s)[k..k + |sep|] == cur[k..k + |sep|];
        assert OccursAt(cur + s, sep, k);
      }
      forall i | 0 <= i < |r| ensures !Contains(r[i], sep) {
        if i > 0 {
          assert r[i] == rest[i - 1];
        }
      }
    } else {
      var next := cur + [s[0]];
      assert next + s[1..] == cur + s;
      forall k | 0 <= k < |next| ensures !OccursAt(next + s[1..], sep, k) {
        if k == |cur| {
          assert (cur + s)[k..k + |sep|] == s[..|sep|];
        }
      }
      SplitPiecesFree(s[1..], sep, next);
    }
  }

  /** Splitting and joining back with the same separator gives the input again. */
  lemma {:induction false} SplitJoin(s: string, sep: string, cur: string)
    requires |sep| > 0
    ensures Join(sep, SplitFrom(s, sep, cur)) == cur + s
    decreases |s|
  {
    if |s| < |sep| {
    } else if s[..|sep|] == sep {
      SplitJoin(s[|sep|..], sep, "");
      JoinCons(sep, cur, SplitFrom(s[|sep|..], sep, ""));
      assert s == sep + s[|sep|..];
    } else {
      SplitJoin(s[1..], sep, cur + [s[0]]);
      assert cur + [s[0]] + s[1..] == cur + s by { assert s == [s[0]] + s[1..]; }
    }
  }

  /** len(xs[:k]) for a list of length n, including Python's negative k. */
  function SliceLen(n: nat, k: int): (m: nat)
    ensures m <= n
    ensures 0 <= k ==> m == (if k < n then k else n)
    ensures k < 0 ==> m + (if -k < n then -k else n) == n
  {
    if 0 <= k then (if k < n then k else n)
    else if n + k < 0 then 0 else n + k
  }

  /** sum() over a list of counts. */
  function Sum(xs: seq<nat>): nat
  {
    if xs == [] then 0 else Sum(xs[..|xs| - 1]) + xs[|xs| - 1]
  }

  /** A sum is positive as soon as one element is. */
  lemma {:induction false} SumPositive(xs: seq<nat>, i: nat)
    requires i < |xs| && xs[i] > 0
    ensures Sum(xs) > 0
  {
    if i < |xs| - 1 {
      SumPositive(xs[..|xs| - 1], i);
    }
  }
}
