/** The string comparison algorithms that predate the scorer: edit distance,
    bigram similarity and the longest common substring, in the Ruby index and
    in the deprecated JavaScript index. Strings are byte strings. */
module StringMetrics {
  import opened Common

  function Min3(x: nat, y: nat, z: nat): nat
  {
    if x <= y && x <= z then x else if y <= z then y else z
  }

  // ---------------------------------------------------------------------------
  // Edit distance
  // ---------------------------------------------------------------------------

  /** The edit distance as the dynamic programme of `levenshtein` defines it:
      the cell in row i and column j holds the distance between a[..i] and b[..j];
      equal last characters cost nothing, otherwise the cheapest of deletion,
      insertion and substitution plus one. */
  function Distance<T(==)>(a: seq<T>, b: seq<T>): nat
    decreases |a| + |b|
  {
    if |a| == 0 then |b|
    else if |b| == 0 then |a|
    else if a[|a| - 1] == b[|b| - 1] then Distance(a[..|a| - 1], b[..|b| - 1])
    else 1 + Min3(Distance(a[..|a| - 1], b), Distance(a, b[..|b| - 1]), Distance(a[..|a| - 1], b[..|b| - 1]))
  }

  /** One cell of the table, in terms of the three cells it is computed from. */
  lemma DistanceCell<T>(a: seq<T>, b: seq<T>, i: nat, j: nat)
    requires 1 <= i <= |a| && 1 <= j <= |b|
    ensures a[i - 1] == b[j - 1] ==> Distance(a[..i], b[..j]) == Distance(a[..i - 1], b[..j - 1])
    ensures a[i - 1] != b[j - 1] ==>
      Distance(a[..i], b[..j]) == 1 + Min3(Distance(a[..i - 1], b[..j]), Distance(a[..i], b[..j - 1]), Distance(a[..i - 1], b[..j - 1]))
  {
    assert a[..i][..i - 1] == a[..i - 1];
    assert b[..j][..j - 1] == b[..j - 1];
  }

  /** The cells of `d` in row 0, in column 0, in a column before `j`, or in
      column `j` above row `i` hold the distances of the matching prefixes. */
  ghost predicate Filled<T>(d: array2<nat>, a: seq<T>, b: seq<T>, j: nat, i: nat)
    reads d
  {
    d.Length0 == |a| + 1 && d.Length1 == |b| + 1 &&
    forall x, y :: 0 <= x <= |a| && 0 <= y <= |b| && (x == 0 || y == 0 || y < j || (y == j && x < i)) ==>
      d[x, y] == Distance(a[..x], b[..y])
  }

  /** `levenshtein(str1, str2)` (the JavaScript `levenshtein` is the same
      programme): the number of single-character insertions, deletions and
      substitutions that turn one string into the other. */
  method Levenshtein<T(==)>(a: seq<T>, b: seq<T>) returns (r: nat)
    ensures r == Distance(a, b)
  {
    var m, n := |a|, |b|;
    if n == 0 {
      return m;
    }
    if m == 0 {
      return n;
    }
    var d := new nat[m + 1, n + 1];
    for i := 0 to m + 1
      invariant forall x :: 0 <= x < i ==> d[x, 0] == x
    {
      d[i, 0] := i;
    }
    for j := 0 to n + 1
      invariant forall x :: 0 <= x <= m ==> d[x, 0] == x
      invariant forall y :: 0 <= y < j ==> d[0, y] == y
    {
      d[0, j] := j;
    }
    assert Filled(d, a, b, 1, 1);
    for j := 1 to n + 1
      invariant Filled(d, a, b, j, 1)
    {
      FillColumn(d, a, b, j);
    }
    assert a[..m] == a && b[..n] == b;
    return d[m, n];
  }

  /** The inner loop of `levenshtein`: column j of the table, top to bottom. */
  method FillColumn<T(==)>(d: array2<nat>, a: seq<T>, b: seq<T>, j: nat)
    requires 1 <= j <= |b| && Filled(d, a, b, j, 1)
    modifies d
    ensures Filled(d, a, b, j + 1, 1)
  {
    for i := 1 to |a| + 1
      invariant Filled(d, a, b, j, i)
    {
      DistanceCell(a, b, i, j);
      if a[i - 1] == b[j - 1] {
        d[i, j] := d[i - 1, j - 1];
      } else {
        d[i, j] := Min3(d[i - 1, j] + 1, d[i, j - 1] + 1, d[i - 1, j - 1] + 1);
      }
    }
  }

  /** The distance is at least the difference of the lengths and at most the
      longer length. */
  lemma {:induction false} DistanceBounds<T>(a: seq<T>, b: seq<T>)
    ensures |a| - |b| <= Distance(a, b) && |b| - |a| <= Distance(a, b)
    ensures Distance(a, b) <= MaxInt(|a|, |b|)
    decreases |a| + |b|
  {
    if |a| > 0 && |b| > 0 {
      var a', b' := a[..|a| - 1], b[..|b| - 1];
      DistanceBounds(a', b');
      if a[|a| - 1] != b[|b| - 1] {
        DistanceBounds(a', b);
        DistanceBounds(a, b');
      }
    }
  }

  /** The distance is zero exactly for equal strings. */
  lemma {:induction false} DistanceZeroIffEqual<T>(a: seq<T>, b: seq<T>)
    ensures Distance(a, b) == 0 <==> a == b
    decreases |a| + |b|
  {
    if |a| > 0 && |b| > 0 {
      var a', b' := a[..|a| - 1], b[..|b| - 1];
      assert a == a' + [a[|a| - 1]] && b == b' + [b[|b| - 1]];
      if a[|a| - 1] == b[|b| - 1] {
        DistanceZeroIffEqual(a', b');
      }
    }
  }

  /** Turning `a` into `b` costs as much as turning `b` into `a`. */
  lemma {:induction false} DistanceSymmetric<T>(a: seq<T>, b: seq<T>)
    ensures Distance(a, b) == Distance(b, a)
    decreases |a| + |b|
  {
    if |a| > 0 && |b| > 0 {
      var a', b' := a[..|a| - 1], b[..|b| - 1];
      DistanceSymmetric(a', b');
      if a[|a| - 1] != b[|b| - 1] {
        DistanceSymmetric(a', b);
        DistanceSymmetric(a, b');
      }
    }
  }

  /** `rlevenshtein(str1, str2)`: 0 when either string is empty, otherwise the
      longer length minus the distance, divided by the shorter length. Since the
      distance is at least the difference of the lengths, the value lies in
      [0, 1]; it is 1 for equal strings. */
  function RelativeLevenshtein(a: seq<byte>, b: seq<byte>): (r: real)
    ensures a == [] || b == [] ==> r == 0.0
    ensures 0.0 <= r <= 1.0
    ensures a == b ==> (r == 1.0 <==> a != [])
  {
    if a == [] || b == [] then 0.0
    else
      DistanceBounds(a, b);
      DistanceZeroIffEqual(a, b);
      UnitRatio(MaxInt(|a|, |b|) - Distance(a, b), MinInt(|a|, |b|));
      (MaxInt(|a|, |b|) - Distance(a, b)) as real / MinInt(|a|, |b|) as real
  }

  /** The JavaScript `rlevenshtein(str1, str2)`: the distance minus the
      difference of the lengths, divided by the longer length. Two empty
      strings give 0/0, which is NaN; otherwise the value lies in [0, 1] and is
      0 for equal strings. */
  function JsRelativeLevenshtein(a: seq<byte>, b: seq<byte>): (r: Float)
    ensures a == [] && b == [] ==> r == NaN
    ensures a != [] || b != [] ==> r.Finite? && 0.0 <= r.value <= 1.0
    ensures a == b && a != [] ==> r == Finite(0.0)
  {
    DistanceBounds(a, b);
    DistanceZeroIffEqual(a, b);
    var diff := if |a| >= |b| then |a| - |b| else |b| - |a|;
    if a == [] && b == [] then NaN
    else
      UnitRatio(Distance(a, b) - diff, MaxInt(|a|, |b|));
      Divide((Distance(a, b) - diff) as real, MaxInt(|a|, |b|) as real)
  }

  /** A quotient whose numerator lies between 0 and the denominator. */
  lemma UnitRatio(num: int, den: int)
    requires 0 <= num <= den && den > 0
    ensures 0.0 <= num as real / den as real <= 1.0
    ensures num == den ==> num as real / den as real == 1.0
    ensures num == 0 ==> num as real / den as real == 0.0
  {
  }

  lemma RatioAtLeastOne(x: real, y: real)
    requires x >= y > 0.0
    ensures x / y >= 1.0
  {
    assert (x / y - 1.0) * y == x - y;
  }

  // ---------------------------------------------------------------------------
  // Bigrams
  // ---------------------------------------------------------------------------

  /** The lower-cased pairs of neighbouring bytes of `s`, left to right. */
  function BigramsOf(s: seq<byte>): (r: seq<seq<byte>>)
    ensures |r| == if |s| == 0 then 0 else |s| - 1
    ensures forall i :: 0 <= i < |r| ==> r[i] == [LowerByte(s[i]), LowerByte(s[i + 1])]
  {
    if |s| < 2 then []
    else
      var lower := Lower(s);
      var r := seq(|s| - 1, i requires 0 <= i < |s| - 1 => lower[i..i + 2]);
      assert forall i :: 0 <= i < |r| ==> r[i] == [lower[i], lower[i + 1]];
      r
  }

  /** `get_bigrams(string)`: for the empty string `(-1).times` runs no step, so
      the result is empty. */
  method Bigrams(s: seq<byte>) returns (v: seq<seq<byte>>)
    ensures v == BigramsOf(s)
  {
    var lower := Lower(s);
    v := [];
    var i := 0;
    while i < |lower| - 1
      invariant 0 <= i <= |s| && (|s| == 0 || i <= |s| - 1)
      invariant |v| == i
      invariant forall k :: 0 <= k < i ==> v[k] == [LowerByte(s[k]), LowerByte(s[k + 1])]
    {
      assert lower[i..i + 2] == [lower[i], lower[i + 1]];
      v := v + [lower[i..i + 2]];
      i := i + 1;
    }
    var expected := BigramsOf(s);
    assert |v| == |expected|;
    forall k | 0 <= k < |v|
      ensures v[k] == expected[k]
    {
      assert v[k] == [LowerByte(s[k]), LowerByte(s[k + 1])];
    }
  }

  /** The JavaScript `get_bigrams(string)`: `new Array(s.length - 1)` raises a
      RangeError for the empty string. */
  method JsBigrams(s: seq<byte>) returns (r: Outcome<seq<seq<byte>>>)
    ensures s == [] ==> r == Raises(RangeError)
    ensures s != [] ==> r == Ok(BigramsOf(s))
  {
    if |s| == 0 {
      return Raises(RangeError);
    }
    var v := Bigrams(s);
    return Ok(v);
  }

  /** How many elements of `q` equal `x`. */
  function Occurrences<T(==)>(q: seq<T>, x: T): nat
  {
    if q == [] then 0 else Occurrences(q[..|q| - 1], x) + (if q[|q| - 1] == x then 1 else 0)
  }

  /** The number of equal pairs over all combinations of an element of `p`
      with an element of `q`. */
  function Hits<T(==)>(p: seq<T>, q: seq<T>): nat
  {
    if p == [] then 0 else Hits(p[..|p| - 1], q) + Occurrences(q, p[|p| - 1])
  }

  /** The nested `each` loops of `common_neighbours` (and the `for ... in`
      loops of `string_similarity`) that count equal pairs. */
  method CountHits<T(==)>(p: seq<T>, q: seq<T>) returns (h: nat)
    ensures h == Hits(p, q)
  {
    h := 0;
    for x := 0 to |p|
      invariant h == Hits(p[..x], q)
    {
      for y := 0 to |q|
        invariant h == Hits(p[..x], q) + Occurrences(q[..y], p[x])
      {
        assert q[..y + 1][..y] == q[..y];
        if p[x] == q[y] {
          h := h + 1;
        }
      }
      assert q[..|q|] == q && p[..x + 1][..x] == p[..x];
    }
    assert p[..|p|] == p;
  }

  lemma {:induction false} OccurrencesZero<T>(q: seq<T>, x: T)
    ensures Occurrences(q, x) == 0 <==> x !in q
  {
    if q != [] {
      OccurrencesZero(q[..|q| - 1], x);
      assert q == q[..|q| - 1] + [q[|q| - 1]];
    }
  }

  /** No pair is counted exactly when the two sequences share no element. */
  lemma {:induction false} HitsZeroIffDisjoint<T>(p: seq<T>, q: seq<T>)
    ensures Hits(p, q) == 0 <==> forall i, j :: 0 <= i < |p| && 0 <= j < |q| ==> p[i] != q[j]
  {
    if p != [] {
      var p' := p[..|p| - 1];
      HitsZeroIffDisjoint(p', q);
      OccurrencesZero(q, p[|p| - 1]);
      assert forall i :: 0 <= i < |p'| ==> p'[i] == p[i];
    }
  }

  /** When every element of `p` occurs in `q`, there are at least |p| hits. */
  lemma {:induction false} HitsCoverContained<T>(p: seq<T>, q: seq<T>)
    requires forall i :: 0 <= i < |p| ==> p[i] in q
    ensures Hits(p, q) >= |p|
  {
    if p != [] {
      var p' := p[..|p| - 1];
      assert forall i :: 0 <= i < |p'| ==> p'[i] == p[i];
      HitsCoverContained(p', q);
      OccurrencesZero(q, p[|p| - 1]);
    }
  }

  /** `common_neighbours(str1, str2)`: twice the number of equal bigram pairs
      over the total number of bigrams, divided again by the shorter length, in
      double arithmetic. It is NaN exactly when a string is empty (0/0 in the
      second division) or both have one byte (no bigrams: 0/0 in the first);
      otherwise it is a finite, non-negative number. */
  function CommonNeighboursOf(a: seq<byte>, b: seq<byte>): (r: Float)
    ensures r.NaN? <==> (a == [] || b == [] || (|a| == 1 && |b| == 1))
    ensures !r.NaN? ==> r.Finite? && r.value >= 0.0
  {
    var p1, p2 := BigramsOf(a), BigramsOf(b);
    var hits := Hits(p1, p2);
    assert p1 == [] || p2 == [] ==> hits == 0 by {
      HitsZeroIffDisjoint(p1, p2);
    }
    DivideFloat(Divide(2.0 * hits as real, (|p1| + |p2|) as real), MinInt(|a|, |b|) as real)
  }

  method CommonNeighbours(a: seq<byte>, b: seq<byte>) returns (r: Float)
    ensures r == CommonNeighboursOf(a, b)
  {
    var pairs1 := Bigrams(a);
    var pairs2 := Bigrams(b);
    var union := |pairs1| + |pairs2|;
    var hits := CountHits(pairs1, pairs2);
    r := DivideFloat(Divide(2.0 * hits as real, union as real), MinInt(|a|, |b|) as real);
  }

  /** Strings without a common bigram (ignoring case) and at least two bytes
      each have no neighbours in common: the value is 0. */
  lemma CommonNeighboursDisjoint(a: seq<byte>, b: seq<byte>)
    requires |a| >= 2 && |b| >= 2
    requires forall i, j :: 0 <= i < |a| - 1 && 0 <= j < |b| - 1 ==> BigramsOf(a)[i] != BigramsOf(b)[j]
    ensures CommonNeighboursOf(a, b) == Finite(0.0)
  {
    var p1, p2 := BigramsOf(a), BigramsOf(b);
    HitsZeroIffDisjoint(p1, p2);
    assert Hits(p1, p2) == 0;
    assert Divide(2.0 * 0 as real, (|p1| + |p2|) as real) == Finite(0.0);
    assert DivideFloat(Finite(0.0), MinInt(|a|, |b|) as real) == Finite(0.0);
  }

  /** The JavaScript `string_similarity(str1, str2)`: twice the number of equal
      bigram pairs over the total number of bigrams. An empty string makes
      `get_bigrams` raise; two one-byte strings give 0/0. */
  function StringSimilarityOf(a: seq<byte>, b: seq<byte>): (r: Outcome<Float>)
    ensures r.Raises? <==> a == [] || b == []
    ensures r.Raises? ==> r.error == RangeError
    ensures r.Ok? ==> (r.value.NaN? <==> |a| == 1 && |b| == 1)
    ensures r.Ok? && !r.value.NaN? ==> r.value.Finite? && r.value.value >= 0.0
  {
    if a == [] || b == [] then Raises(RangeError)
    else
      var p1, p2 := BigramsOf(a), BigramsOf(b);
      var h, u := 2.0 * Hits(p1, p2) as real, (|p1| + |p2|) as real;
      assert u == 0.0 ==> h == 0.0 by {
        HitsZeroIffDisjoint(p1, p2);
      }
      assert u != 0.0 ==> h / u >= 0.0 by {
        if u != 0.0 {
          QuotientNonNegative(h, u);
        }
      }
      Ok(Divide(h, u))
  }

  lemma QuotientNonNegative(x: real, y: real)
    requires x >= 0.0 && y > 0.0
    ensures x / y >= 0.0
  {
  }

  method StringSimilarity(a: seq<byte>, b: seq<byte>) returns (r: Outcome<Float>)
    ensures r == StringSimilarityOf(a, b)
  {
    var pairs1 := JsBigrams(a);
    if pairs1.Raises? {
      return Raises(pairs1.error);
    }
    var pairs2 := JsBigrams(b);
    if pairs2.Raises? {
      return Raises(pairs2.error);
    }
    var union := |pairs1.value| + |pairs2.value|;
    var hits := CountHits(pairs1.value, pairs2.value);
    return Ok(Divide(2.0 * hits as real, union as real));
  }

  /** A string of at least two bytes is at least 100% similar to itself (more
      when a bigram repeats). */
  lemma SimilarToItself(a: seq<byte>)
    requires |a| >= 2
    ensures StringSimilarityOf(a, a).Ok? && StringSimilarityOf(a, a).value.Finite?
    ensures StringSimilarityOf(a, a).value.value >= 1.0
  {
    var p := BigramsOf(a);
    HitsCoverContained(p, p);
    var h, u := 2.0 * Hits(p, p) as real, (|p| + |p|) as real;
    assert StringSimilarityOf(a, a) == Ok(Divide(h, u));
    RatioAtLeastOne(h, u);
  }

  // ---------------------------------------------------------------------------
  // Longest common substring
  // ---------------------------------------------------------------------------

  /** The length of the longest common run of bytes ending at a[x] and b[y]. */
  function Run(a: seq<byte>, b: seq<byte>, x: nat, y: nat): nat
    requires x < |a| && y < |b|
  {
    if a[x] != b[y] then 0
    else if x > 0 && y > 0 then 1 + Run(a, b, x - 1, y - 1)
    else 1
  }

  /** The longest run ending at a cell visited before cell (x, y) in the order
      of the nested loops (row by row). */
  function BestRun(a: seq<byte>, b: seq<byte>, x: nat, y: nat): nat
    requires x <= |a| && y <= |b| && (x == |a| ==> y == 0)
    decreases x, y
  {
    if y == 0 then (if x == 0 then 0 else BestRun(a, b, x - 1, |b|))
    else MaxInt(BestRun(a, b, x, y - 1), Run(a, b, x, y - 1))
  }

  /** The length of the longest common substring; 0 when a string is empty. */
  function Longest(a: seq<byte>, b: seq<byte>): nat
  {
    if a == [] || b == [] then 0 else BestRun(a, b, |a|, 0)
  }

  /** Cell (x', y') is visited before cell (x, y). */
  predicate Before(x': nat, y': nat, x: nat, y: nat)
  {
    x' < x || (x' == x && y' < y)
  }

  /** Cells visited before (x, y) hold their run; the others still hold the 0
      they were created with. */
  ghost predicate RunsUpTo(t: array2<nat>, a: seq<byte>, b: seq<byte>, x: nat, y: nat)
    reads t
  {
    t.Length0 == |a| && t.Length1 == |b| &&
    forall x', y' :: 0 <= x' < |a| && 0 <= y' < |b| ==>
      t[x', y'] == if Before(x', y', x, y) then Run(a, b, x', y') else 0
  }

  /** `longest_common_substr_length(str1, str2)`: 0 when a string is empty,
      otherwise the length of the longest common substring over the shorter
      length. (The code after the first `return` is never reached.) */
  method LongestCommonSubstrLength(a: seq<byte>, b: seq<byte>) returns (r: real)
    ensures r == if a == [] || b == [] then 0.0 else Longest(a, b) as real / MinInt(|a|, |b|) as real
  {
    if |a| == 0 || |b| == 0 {
      return 0.0;
    }
    var t := new nat[|a|, |b|]((_, _) => 0);
    var longest := 0;
    for x := 0 to |a|
      invariant longest == BestRun(a, b, x, 0)
      invariant RunsUpTo(t, a, b, x, 0)
    {
      for y := 0 to |b|
        invariant longest == BestRun(a, b, x, y)
        invariant RunsUpTo(t, a, b, x, y)
      {
        if a[x] == b[y] {
          t[x, y] := 1;
          if x > 0 && y > 0 {
            t[x, y] := t[x, y] + t[x - 1, y - 1];
          }
          if t[x, y] > longest {
            longest := t[x, y];
          }
        }
      }
    }
    return longest as real / MinInt(|a|, |b|) as real;
  }

  /** The bytes before a run of length k ending at (x, y) are equal. */
  lemma {:induction false} RunIsCommon(a: seq<byte>, b: seq<byte>, x: nat, y: nat)
    requires x < |a| && y < |b|
    ensures Run(a, b, x, y) <= x + 1 && Run(a, b, x, y) <= y + 1
    ensures a[x + 1 - Run(a, b, x, y)..x + 1] == b[y + 1 - Run(a, b, x, y)..y + 1]
  {
    if a[x] == b[y] && x > 0 && y > 0 {
      RunIsCommon(a, b, x - 1, y - 1);
      var k := Run(a, b, x - 1, y - 1);
      assert a[x - k..x + 1] == a[x - k..x] + [a[x]];
      assert b[y - k..y + 1] == b[y - k..y] + [b[y]];
    }
  }

  /** A common substring of length k ending at (x, y) gives a run of at least k. */
  lemma {:induction false} CommonIsRun(a: seq<byte>, b: seq<byte>, x: nat, y: nat, k: nat)
    requires x < |a| && y < |b| && k <= x + 1 && k <= y + 1
    requires a[x + 1 - k..x + 1] == b[y + 1 - k..y + 1]
    ensures Run(a, b, x, y) >= k
    decreases k
  {
    if k > 0 {
      assert a[x] == a[x + 1 - k..x + 1][k - 1];
      assert b[y] == b[y + 1 - k..y + 1][k - 1];
      if k > 1 {
        assert a[x + 1 - k..x] == a[x + 1 - k..x + 1][..k - 1];
        assert b[y + 1 - k..y] == b[y + 1 - k..y + 1][..k - 1];
        CommonIsRun(a, b, x - 1, y - 1, k - 1);
      }
    }
  }

  /** BestRun is at least the run of every cell visited earlier. */
  lemma {:induction false} BestRunDominates(a: seq<byte>, b: seq<byte>, x: nat, y: nat, x': nat, y': nat)
    requires x <= |a| && y <= |b| && (x == |a| ==> y == 0)
    requires x' < |a| && y' < |b| && Before(x', y', x, y)
    ensures Run(a, b, x', y') <= BestRun(a, b, x, y)
    decreases x, y
  {
    if y == 0 {
      BestRunDominates(a, b, x - 1, |b|, x', y');
    } else if Before(x', y', x, y - 1) {
      BestRunDominates(a, b, x, y - 1, x', y');
    }
  }

  /** BestRun is 0 or the run of some cell visited earlier. */
  lemma {:induction false} BestRunAttained(a: seq<byte>, b: seq<byte>, x: nat, y: nat) returns (x': nat, y': nat)
    requires x <= |a| && y <= |b| && (x == |a| ==> y == 0)
    ensures BestRun(a, b, x, y) > 0 ==>
      x' < |a| && y' < |b| && Before(x', y', x, y) && Run(a, b, x', y') == BestRun(a, b, x, y)
    decreases x, y
  {
    x', y' := 0, 0;
    if y == 0 {
      if x > 0 {
        x', y' := BestRunAttained(a, b, x - 1, |b|);
      }
    } else if BestRun(a, b, x, y - 1) >= Run(a, b, x, y - 1) {
      x', y' := BestRunAttained(a, b, x, y - 1);
    } else {
      x', y' := x, y - 1;
    }
  }

  /** `Longest(a, b)` is the length of a common substring ... */
  lemma LongestIsCommon(a: seq<byte>, b: seq<byte>) returns (i: nat, j: nat)
    ensures i + Longest(a, b) <= |a| && j + Longest(a, b) <= |b|
    ensures a[i..i + Longest(a, b)] == b[j..j + Longest(a, b)]
  {
    i, j := 0, 0;
    var l := Longest(a, b);
    if l > 0 {
      assert l == BestRun(a, b, |a|, 0);
      var x, y := BestRunAttained(a, b, |a|, 0);
      RunIsCommon(a, b, x, y);
      assert Run(a, b, x, y) == l;
      i, j := x + 1 - l, y + 1 - l;
    }
  }

  /** ... and no common substring is longer. */
  lemma LongestIsMaximal(a: seq<byte>, b: seq<byte>, i: nat, j: nat, k: nat)
    requires i + k <= |a| && j + k <= |b|
    requires a[i..i + k] == b[j..j + k]
    ensures k <= Longest(a, b)
  {
    if k > 0 {
      CommonIsRun(a, b, i + k - 1, j + k - 1, k);
      BestRunDominates(a, b, |a|, 0, i + k - 1, j + k - 1);
    }
  }

  /** The ratio `longest_common_substr_length` returns lies in [0, 1] ... */
  lemma LongestRatioBounds(a: seq<byte>, b: seq<byte>)
    requires a != [] && b != []
    ensures 0.0 <= Longest(a, b) as real / MinInt(|a|, |b|) as real <= 1.0
  {
    var i, j := LongestIsCommon(a, b);
    UnitRatio(Longest(a, b), MinInt(|a|, |b|));
  }

  /** ... and is 1 when the shorter string occurs in the longer one. */
  lemma LongestRatioContained(a: seq<byte>, b: seq<byte>, j: nat)
    requires a != [] && |a| <= |b|
    requires j + |a| <= |b| && b[j..j + |a|] == a
    ensures Longest(a, b) as real / MinInt(|a|, |b|) as real == 1.0
  {
    var i', j' := LongestIsCommon(a, b);
    assert a[0..|a|] == a;
    LongestIsMaximal(a, b, 0, j, |a|);
    UnitRatio(Longest(a, b), MinInt(|a|, |b|));
  }
}
