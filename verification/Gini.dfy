/** How unevenly samples are spread over functions: the Gini coefficient, computed from
    the sorted counts and defined by the differences of all pairs. */
module Gini {
  import opened Text
  import opened Sorting

  function Total(s: seq<int>): int {
    if s == [] then 0 else Total(s[..|s| - 1]) + s[|s| - 1]
  }

  function Gap(a: int, b: int): nat { if a < b then b - a else a - b }

  /** Sum of the differences between `x` and the elements of `s`. */
  function GapsTo(x: int, s: seq<int>): nat {
    if s == [] then 0 else GapsTo(x, s[..|s| - 1]) + Gap(x, s[|s| - 1])
  }

  /** Sum of the differences of all pairs, each pair once. */
  function PairGaps(s: seq<int>): nat {
    if s == [] then 0 else PairGaps(s[..|s| - 1]) + GapsTo(s[|s| - 1], s[..|s| - 1])
  }

  /** The double sum over all ordered pairs. */
  function AllGaps(s: seq<int>, t: seq<int>): nat {
    if s == [] then 0 else AllGaps(s[..|s| - 1], t) + GapsTo(s[|s| - 1], t)
  }

  /** The sum of (2i - n - 1) times the i-th element, for a list of `n` in all. */
  function Weighted(s: seq<int>, n: int): int {
    if s == [] then 0 else Weighted(s[..|s| - 1], n) + (2 * |s| - n - 1) * s[|s| - 1]
  }

  ghost predicate Ascending(s: seq<int>) { forall i, j :: 0 <= i < j < |s| ==> s[i] <= s[j] }
  ghost predicate NonNegative(s: seq<int>) { forall i :: 0 <= i < |s| ==> s[i] >= 0 }
  ghost predicate AllEqual(s: seq<int>) { forall i, j :: 0 <= i < j < |s| ==> s[i] == s[j] }

  // ---------- the fast form ----------

  lemma {:induction false} GapsToLargest(x: int, s: seq<int>)
    requires forall i :: 0 <= i < |s| ==> s[i] <= x
    ensures GapsTo(x, s) == |s| * x - Total(s)
  {
    if s != [] {
      GapsToLargest(x, s[..|s| - 1]);
      OneMore(|s| - 1, x);
    }
  }

  lemma {:induction false} WeightedShift(s: seq<int>, n: int)
    ensures Weighted(s, n + 1) == Weighted(s, n) - Total(s)
  {
    if s != [] {
      var k, x := |s|, s[|s| - 1];
      WeightedShift(s[..k - 1], n);
      assert (2 * k - (n + 1) - 1) * x == (2 * k - n - 1) * x - x;
    }
  }

  /** On a sorted list the weighted sum is the sum of all pairwise differences. */
  lemma {:induction false} WeightedIsPairGaps(s: seq<int>)
    requires Ascending(s)
    ensures Weighted(s, |s|) == PairGaps(s)
  {
    if s != [] {
      var n := |s| - 1;
      var x := s[n];
      WeightedIsPairGaps(s[..n]);
      WeightedShift(s[..n], n);
      GapsToLargest(x, s[..n]);
      assert (2 * |s| - |s| - 1) * x == n * x;
    }
  }

  // ---------- independence of order ----------

  lemma {:induction false} GapsToWithout(x: int, s: seq<int>, k: nat)
    requires k < |s|
    ensures GapsTo(x, s) == GapsTo(x, s[..k] + s[k + 1..]) + Gap(x, s[k])
    decreases |s|
  {
    var n := |s| - 1;
    if k == n {
      assert s[..k] + s[k + 1..] == s[..n];
    } else {
      var rest := s[..n][..k] + s[..n][k + 1..];
      GapsToWithout(x, s[..n], k);
      assert s[..k] + s[k + 1..] == rest + [s[n]];
      assert (rest + [s[n]])[..|rest|] == rest;
    }
  }

  lemma {:induction false} PairGapsWithout(s: seq<int>, k: nat)
    requires k < |s|
    ensures PairGaps(s) == PairGaps(s[..k] + s[k + 1..]) + GapsTo(s[k], s[..k] + s[k + 1..])
    decreases |s|
  {
    var n := |s| - 1;
    if k == n {
      assert s[..k] + s[k + 1..] == s[..n];
    } else {
      var rest := s[..n][..k] + s[..n][k + 1..];
      PairGapsWithout(s[..n], k);
      GapsToWithout(s[n], s[..n], k);
      assert s[..k] + s[k + 1..] == rest + [s[n]];
      assert (rest + [s[n]])[..|rest|] == rest;
    }
  }

  lemma {:induction false} TotalWithout(s: seq<int>, k: nat)
    requires k < |s|
    ensures Total(s) == Total(s[..k] + s[k + 1..]) + s[k]
    decreases |s|
  {
    var n := |s| - 1;
    if k == n {
      assert s[..k] + s[k + 1..] == s[..n];
    } else {
      var rest := s[..n][..k] + s[..n][k + 1..];
      TotalWithout(s[..n], k);
      assert s[..k] + s[k + 1..] == rest + [s[n]];
      assert (rest + [s[n]])[..|rest|] == rest;
    }
  }

  lemma {:induction false} GapsToPermuted(x: int, s: seq<int>, t: seq<int>)
    requires multiset(s) == multiset(t)
    ensures GapsTo(x, s) == GapsTo(x, t)
    decreases |s|
  {
    if s == [] {
      assert |multiset(t)| == 0;
    } else {
      var k := FindIn(s, t);
      GapsToPermuted(x, s[..|s| - 1], t[..k] + t[k + 1..]);
      GapsToWithout(x, t, k);
    }
  }

  /** Pairwise differences and the total do not depend on the order. */
  lemma {:induction false} Permuted(s: seq<int>, t: seq<int>)
    requires multiset(s) == multiset(t)
    ensures |s| == |t| && PairGaps(s) == PairGaps(t) && Total(s) == Total(t)
    decreases |s|
  {
    assert |s| == |multiset(s)| == |multiset(t)| == |t|;
    if s != [] {
      var n := |s| - 1;
      var k := FindIn(s, t);
      Permuted(s[..n], t[..k] + t[k + 1..]);
      GapsToPermuted(s[n], s[..n], t[..k] + t[k + 1..]);
      PairGapsWithout(t, k);
      TotalWithout(t, k);
    }
  }

  // ---------- the quadratic definition ----------

  lemma {:induction false} AllGapsSnoc(s: seq<int>, t: seq<int>, x: int)
    ensures AllGaps(s, t + [x]) == AllGaps(s, t) + GapsTo(x, s)
    decreases |s|
  {
    if s != [] {
      AllGapsSnoc(s[..|s| - 1], t, x);
      assert (t + [x])[..|t|] == t;
    }
  }

  lemma {:induction false} AllGapsTwice(s: seq<int>)
    ensures AllGaps(s, s) == 2 * PairGaps(s)
  {
    if s != [] {
      var n := |s| - 1;
      AllGapsTwice(s[..n]);
      assert s == s[..n] + [s[n]];
      AllGapsSnoc(s[..n], s[..n], s[n]);
    }
  }

  // ---------- bounds ----------

  lemma OneMore(n: int, x: int)
    ensures (n + 1) * x == n * x + x
  {
  }

  lemma Spread(n: int, a: int, x: int)
    ensures n * (a + x) == (n - 1) * a + (n * x + a)
  {
  }

  lemma {:induction false} GapsToBound(x: int, s: seq<int>)
    requires x >= 0 && NonNegative(s)
    ensures GapsTo(x, s) <= |s| * x + Total(s)
  {
    if s != [] {
      GapsToBound(x, s[..|s| - 1]);
      OneMore(|s| - 1, x);
    }
  }

  lemma {:induction false} PairGapsBound(s: seq<int>)
    requires NonNegative(s) && s != []
    ensures PairGaps(s) <= (|s| - 1) * Total(s)
  {
    var n := |s| - 1;
    if n == 0 {
      assert s[..0] == [];
    } else {
      PairGapsBound(s[..n]);
      GapsToBound(s[n], s[..n]);
      Spread(n, Total(s[..n]), s[n]);
    }
  }

  lemma {:induction false} GapsToZero(x: int, s: seq<int>)
    ensures GapsTo(x, s) == 0 <==> forall i :: 0 <= i < |s| ==> s[i] == x
  {
    if s != [] {
      var n := |s| - 1;
      GapsToZero(x, s[..n]);
      assert forall i :: 0 <= i < n ==> s[..n][i] == s[i];
    }
  }

  lemma {:induction false} PairGapsZero(s: seq<int>)
    ensures PairGaps(s) == 0 <==> AllEqual(s)
  {
    if s != [] {
      var n := |s| - 1;
      PairGapsZero(s[..n]);
      GapsToZero(s[n], s[..n]);
    }
  }

  // ---------- the coefficient ----------

  /** Mean difference of two samples relative to twice the mean. */
  function Coefficient(s: seq<int>): real
    requires s != [] && Total(s) != 0
  {
    Quotient(AllGaps(s, s), 2 * (|s| * Total(s)))
  }

  function Quotient(a: int, b: int): real
    requires b != 0
  {
    a as real / b as real
  }

  lemma Halved(a: int, b: int)
    requires b != 0
    ensures Quotient(2 * a, 2 * b) == Quotient(a, b)
  {
  }

  lemma Denominator(n: int, total: int)
    requires n > 0 && total != 0
    ensures n * total != 0 && (total > 0 ==> n * total > 0)
  {
  }

  function Below(x: int): int { -x }

  lemma SortedAscending(s: seq<int>)
    ensures Ascending(Sorted(s, Below))
  {
    SortedDescending(s, Below);
    var r := Sorted(s, Below);
    forall i, j | 0 <= i < j < |r| ensures r[i] <= r[j] { assert Below(r[i]) >= Below(r[j]); }
  }

  /** The fast computation gives the quadratic coefficient. */
  method GiniCoefficient(values: seq<int>) returns (g: real)
    ensures values == [] || Total(values) == 0 ==> g == 0.0
    ensures values != [] && Total(values) != 0 ==> g == Coefficient(values)
  {
    var sum := SumOf(values);
    if values == [] || sum == 0 { return 0.0; }
    var sorted := Sorted(values, Below);
    var n := |sorted|;
    SortedKeeps(values, Below);
    Permuted(sorted, values);
    var total := SumOf(sorted);
    var giniSum := WeightedSum(sorted);
    Denominator(n, total);
    SortedAscending(values);
    WeightedIsPairGaps(sorted);
    AllGapsTwice(values);
    Halved(giniSum, n * total);
    g := giniSum as real / (n * total) as real;
  }

  method SumOf(s: seq<int>) returns (t: int)
    ensures t == Total(s)
  {
    t := 0;
    for i := 0 to |s|
      invariant t == Total(s[..i])
    {
      assert s[..i + 1][..i] == s[..i];
      t := t + s[i];
    }
    TakeAll(s);
  }

  method WeightedSum(s: seq<int>) returns (t: int)
    ensures t == Weighted(s, |s|)
  {
    t := 0;
    var n := |s|;
    for i := 0 to |s|
      invariant t == Weighted(s[..i], n)
    {
      assert s[..i + 1][..i] == s[..i];
      t := t + (2 * (i + 1) - n - 1) * s[i];
    }
    TakeAll(s);
  }

  lemma QuotientBound(a: int, n: int, total: int)
    requires 0 <= a <= (n - 1) * total && n > 0 && total > 0
    ensures n * total > 0 && 0.0 <= Quotient(a, n * total) <= Quotient(n - 1, n)
    ensures Quotient(a, n * total) == 0.0 <==> a == 0
  {
    Denominator(n, total);
    var b, q := (n * total) as real, Quotient(n - 1, n);
    assert b == n as real * total as real;
    assert q * b == ((n - 1) as real / n as real) * (n as real * total as real) == (n - 1) as real * total as real;
    assert a as real <= q * b;
    assert a as real / b <= q;
  }

  /** For non-negative counts with a positive sum the coefficient lies between 0 and
      (n-1)/n, does not depend on the order, and is 0 exactly when all counts are equal. */
  lemma CoefficientLaws(s: seq<int>, t: seq<int>)
    requires s != [] && NonNegative(s) && Total(s) > 0 && multiset(s) == multiset(t)
    ensures 0.0 <= Coefficient(s) <= Quotient(|s| - 1, |s|)
    ensures Coefficient(s) == 0.0 <==> AllEqual(s)
    ensures t != [] && Total(t) == Total(s) && Coefficient(t) == Coefficient(s)
  {
    AllGapsTwice(s);
    AllGapsTwice(t);
    Permuted(s, t);
    PairGapsBound(s);
    PairGapsZero(s);
    QuotientBound(PairGaps(s), |s|, Total(s));
    Halved(PairGaps(s), |s| * Total(s));
  }
}
