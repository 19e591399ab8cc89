/** Percentiles by linear interpolation (internal/store/percentile.go), over the reals. */
module Percentile {
  import opened Sorting

  predicate Le(a: real, b: real) { a <= b }

  lemma LeTotal()
    ensures TotalOrder(Le)
  {
  }

  /** Between a and b, the fraction f of the way. */
  function Lerp(a: real, b: real, f: real): real { a * (1.0 - f) + b * f }

  /** The value at a fractional rank of sorted values, the last one past the end. */
  function AtRank(s: seq<real>, rank: real): real
    requires s != [] && rank >= 0.0
  {
    var lo := rank.Floor;
    if lo + 1 >= |s| then s[|s| - 1] else Lerp(s[lo], s[lo + 1], rank - lo as real)
  }

  /** The p-th percentile of sorted values. */
  function At(s: seq<real>, p: real): real
    requires s != []
  {
    if p <= 0.0 then s[0]
    else if p >= 1.0 then s[|s| - 1]
    else
      RankInRange(p, |s|);
      AtRank(s, Rank(p, |s|))
  }

  function Rank(p: real, n: nat): real
    requires n >= 1
  {
    p * (n - 1) as real
  }

  lemma RankInRange(p: real, n: nat)
    requires 0.0 < p && n >= 1
    ensures 0.0 <= Rank(p, n)
  {
    Scale(0.0, p, (n - 1) as real);
  }

  lemma RanksInOrder(p: real, q: real, n: nat)
    requires 0.0 < p <= q && n >= 1
    ensures 0.0 <= Rank(p, n) <= Rank(q, n)
  {
    RankInRange(p, n);
    Scale(p, q, (n - 1) as real);
  }

  lemma Scale(a: real, b: real, c: real)
    requires a <= b && c >= 0.0
    ensures a * c <= b * c
  {
  }

  /** Sorts the values in place (if there are at least two); the result depends on nothing but the
      values and p, not on their order. No index is out of range. */
  method Percentile(values: array<real>, p: real) returns (r: real)
    modifies values
    ensures multiset(values[..]) == multiset(old(values[..])) && Sorted(values[..], Le)
    ensures values.Length == 0 ==> r == 0.0
    ensures values.Length > 0 ==> forall s :: Sorted(s, Le) && multiset(s) == multiset(old(values[..])) ==> s != [] && r == At(s, p)
  {
    var n := values.Length;
    if n == 0 {
      return 0.0;
    }
    LeTotal();
    ghost var before := values[..];
    if n > 1 {
      Sort(values, Le);
    }
    r := Pick(values, p);
    forall s | Sorted(s, Le) && multiset(s) == multiset(before) ensures s == values[..] {
      SortedUnique(s, values[..], Le);
    }
  }

  method Pick(values: array<real>, p: real) returns (r: real)
    requires values.Length > 0
    ensures r == At(values[..], p)
  {
    var n := values.Length;
    if n == 1 {
      return values[0];
    }
    if p <= 0.0 {
      return values[0];
    }
    if p >= 1.0 {
      return values[n - 1];
    }
    RankInRange(p, n);
    r := Interpolate(values, Rank(p, n));
  }

  method Interpolate(values: array<real>, rank: real) returns (r: real)
    requires values.Length > 0 && rank >= 0.0
    ensures r == AtRank(values[..], rank)
  {
    var n, lo := values.Length, rank.Floor;
    var hi := lo + 1;
    if hi >= n {
      return values[n - 1];
    }
    var frac := rank - lo as real;
    return values[lo] * (1.0 - frac) + values[hi] * frac;
  }

  lemma LerpBetween(a: real, b: real, f: real)
    requires a <= b && 0.0 <= f <= 1.0
    ensures a <= Lerp(a, b, f) <= b
  {
    assert Lerp(a, b, f) == a + (b - a) * f;
    Scale(0.0, f, b - a);
    Scale(f, 1.0, b - a);
  }

  lemma LerpMonotone(a: real, b: real, f: real, g: real)
    requires a <= b && f <= g
    ensures Lerp(a, b, f) <= Lerp(a, b, g)
  {
    assert Lerp(a, b, f) == a + (b - a) * f;
    assert Lerp(a, b, g) == a + (b - a) * g;
    Scale(f, g, b - a);
  }

  lemma Sandwich(s: seq<real>, i: nat, j: nat)
    requires Sorted(s, Le) && i <= j < |s|
    ensures s[i] <= s[j]
  {
    assert i < j ==> Le(s[i], s[j]);
  }

  /** The values to the left and right of a rank bound the value there. */
  lemma Neighbours(s: seq<real>, rank: real)
    requires Sorted(s, Le) && 0.0 <= rank && rank.Floor + 1 < |s|
    ensures s[rank.Floor] <= AtRank(s, rank) <= s[rank.Floor + 1]
  {
    Sandwich(s, rank.Floor, rank.Floor + 1);
    LerpBetween(s[rank.Floor], s[rank.Floor + 1], rank - rank.Floor as real);
  }

  lemma RankBounds(s: seq<real>, rank: real)
    requires s != [] && Sorted(s, Le) && 0.0 <= rank
    ensures s[0] <= AtRank(s, rank) <= s[|s| - 1]
  {
    Sandwich(s, 0, |s| - 1);
    if rank.Floor + 1 < |s| {
      Neighbours(s, rank);
      Sandwich(s, 0, rank.Floor);
      Sandwich(s, rank.Floor + 1, |s| - 1);
    }
  }

  lemma RankMonotone(s: seq<real>, x: real, y: real)
    requires s != [] && Sorted(s, Le) && 0.0 <= x <= y
    ensures AtRank(s, x) <= AtRank(s, y)
  {
    var a, b := x.Floor, y.Floor;
    if b + 1 >= |s| {
      RankBounds(s, x);
    } else if a == b {
      Sandwich(s, a, a + 1);
      LerpMonotone(s[a], s[a + 1], x - a as real, y - a as real);
    } else {
      Neighbours(s, x);
      Neighbours(s, y);
      Sandwich(s, a + 1, b);
    }
  }

  /** A percentile lies between the least and the greatest value. */
  lemma Bounds(s: seq<real>, p: real)
    requires s != [] && Sorted(s, Le)
    ensures s[0] <= At(s, p) <= s[|s| - 1]
  {
    Sandwich(s, 0, |s| - 1);
    if 0.0 < p < 1.0 {
      RankInRange(p, |s|);
      RankBounds(s, Rank(p, |s|));
    }
  }

  /** A higher percentile is no less. */
  lemma Monotone(s: seq<real>, p: real, q: real)
    requires s != [] && Sorted(s, Le) && p <= q
    ensures At(s, p) <= At(s, q)
  {
    Bounds(s, p);
    Bounds(s, q);
    if 0.0 < p && q < 1.0 {
      RanksInOrder(p, q, |s|);
      RankMonotone(s, Rank(p, |s|), Rank(q, |s|));
    }
  }

  lemma Quotient(p: real, a: real, b: real)
    requires p * b == a && b > 0.0
    ensures a > 0.0 ==> p > 0.0
    ensures a < b ==> p < 1.0
  {
    if p <= 0.0 {
      Scale(p, 0.0, b);
    } else if p >= 1.0 {
      Scale(1.0, p, b);
    }
  }

  /** Between two neighbouring order statistics the percentile is linear: at (k + f)/(n-1) it is the
      fraction f of the way from the k-th smallest value to the next. */
  lemma LinearBetween(s: seq<real>, k: nat, f: real)
    requires |s| >= 2 && k + 1 < |s| && 0.0 <= f < 1.0
    ensures At(s, (k as real + f) / (|s| - 1) as real) == s[k] + f * (s[k + 1] - s[k])
  {
    var n := (|s| - 1) as real;
    var p := (k as real + f) / n;
    assert p * n == k as real + f;
    Quotient(p, k as real + f, n);
    if p > 0.0 {
      assert Rank(p, |s|) == k as real + f && (k as real + f).Floor == k;
      assert AtRank(s, k as real + f) == Lerp(s[k], s[k + 1], f);
    } else {
      NotPositive(p, k as real + f, n);
    }
  }

  lemma NotPositive(p: real, a: real, b: real)
    requires p * b == a && b > 0.0 && p <= 0.0 && a >= 0.0
    ensures a == 0.0
  {
    Scale(p, 0.0, b);
  }

  /** At k/(n-1) the percentile is the k-th smallest value. */
  lemma OrderStatistic(s: seq<real>, k: nat)
    requires |s| >= 2 && Sorted(s, Le) && k < |s|
    ensures At(s, k as real / (|s| - 1) as real) == s[k]
  {
    var n := (|s| - 1) as real;
    var p := k as real / n;
    assert p * n == k as real;
    Quotient(p, k as real, n);
    assert Rank(p, |s|) == k as real;
    assert AtRank(s, k as real) == s[k];
  }
}
