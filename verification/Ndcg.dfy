/** `calculate_ndcg` of the adaptive benchmark: bounded by 1 through a rearrangement argument, and
    equal to 1 exactly on an ideally ordered prefix. */
module Ndcg {
  import opened Basics

  /** A positive, strictly decreasing discount per result position. */
  ghost predicate IsDiscount(w: nat -> real) {
    && (forall i: nat :: 0.0 < w(i))
    && (forall i: nat, j: nat :: i < j ==> w(j) < w(i))
  }

  // ---- weighted sums ---------------------------------------------------------------------------

  function Prefix(d: seq<int>, n: nat): int
    requires n <= |d|
  {
    if n == 0 then 0 else Prefix(d, n - 1) + d[n - 1]
  }

  function Weighted(w: nat -> real, d: seq<int>, n: nat): real
    requires n <= |d|
  {
    if n == 0 then 0.0 else Weighted(w, d, n - 1) + d[n - 1] as real * w(n - 1)
  }

  lemma ScaledLess(x: real, y: real, p: real)
    requires x <= y && 0.0 <= p
    ensures p * x <= p * y
  {
  }

  /** Non-negative prefix sums against a decreasing discount (summation by parts). */
  lemma {:induction false} WeightedBound(w: nat -> real, d: seq<int>, n: nat)
    requires IsDiscount(w) && 0 < n <= |d|
    requires forall m :: 0 <= m <= n ==> Prefix(d, m) >= 0
    ensures Weighted(w, d, n) >= Prefix(d, n) as real * w(n - 1) >= 0.0
  {
    if n == 1 {
      assert Prefix(d, 0) == 0 && Prefix(d, 1) == d[0];
      assert Weighted(w, d, 0) == 0.0;
    } else {
      WeightedBound(w, d, n - 1);
      var p, u, v := Prefix(d, n - 1) as real, w(n - 2), w(n - 1);
      ScaledLess(v, u, p);
      assert Prefix(d, n) as real == p + d[n - 1] as real;
      assert (p + d[n - 1] as real) * v == p * v + d[n - 1] as real * v;
      assert Prefix(d, n) >= 0;
    }
  }

  /** A zero weighted sum with non-negative prefix sums is a sum of zeros. */
  lemma {:induction false} WeightedZero(w: nat -> real, d: seq<int>, n: nat)
    requires IsDiscount(w) && n <= |d|
    requires forall m :: 0 <= m <= n ==> Prefix(d, m) >= 0
    requires Weighted(w, d, n) == 0.0
    ensures forall i :: 0 <= i < n ==> d[i] == 0
  {
    if n > 0 {
      WeightedBound(w, d, n);
      PositiveFactor(Prefix(d, n) as real, w(n - 1));
      assert Prefix(d, n) == 0;
      if n > 1 { LastIsZero(w, d, n); }
      assert d[n - 1] == 0;
      WeightedZero(w, d, n - 1);
    }
  }

  lemma PositiveFactor(x: real, w: real)
    requires w > 0.0 && x * w <= 0.0
    ensures x <= 0.0
  {
  }

  lemma LastIsZero(w: nat -> real, d: seq<int>, n: nat)
    requires IsDiscount(w) && 1 < n <= |d|
    requires forall m :: 0 <= m <= n ==> Prefix(d, m) >= 0
    requires Weighted(w, d, n) == 0.0 && Prefix(d, n) == 0
    ensures d[n - 1] == 0
  {
    WeightedBound(w, d, n - 1);
    var p, u, v := Prefix(d, n - 1) as real, w(n - 2), w(n - 1);
    assert d[n - 1] as real == -p;
    assert Weighted(w, d, n) == Weighted(w, d, n - 1) - p * v;
    assert p * (u - v) == p * u - p * v;
    PositiveFactor(p, u - v);
  }

  lemma {:induction false} WeightedDifference(w: nat -> real, g: seq<int>, h: seq<int>, d: seq<int>, n: nat)
    requires IsDiscount(w) && n <= |g| == |h| == |d| && forall i :: 0 <= i < |d| ==> d[i] == h[i] - g[i]
    ensures Weighted(w, d, n) == Weighted(w, h, n) - Weighted(w, g, n)
    ensures Prefix(d, n) == Prefix(h, n) - Prefix(g, n)
  {
    if n > 0 {
      WeightedDifference(w, g, h, d, n - 1);
      var v := w(n - 1);
      assert (h[n - 1] - g[n - 1]) as real * v == h[n - 1] as real * v - g[n - 1] as real * v;
    }
  }

  // ---- gains -----------------------------------------------------------------------------------

  /** First position of `id` in the ground truth, or its length when absent. */
  function First(gt: seq<nat>, id: nat): (p: nat)
    ensures p <= |gt| && (p < |gt| ==> gt[p] == id) && forall i :: 0 <= i < p ==> gt[i] != id
  {
    if gt == [] then 0 else if gt[0] == id then 0 else 1 + First(gt[1..], id)
  }

  function Gains(retrieved: seq<nat>, gt: seq<nat>): (g: seq<int>)
    ensures |g| == |retrieved| && forall i :: 0 <= i < |g| ==> g[i] == |gt| - First(gt, retrieved[i])
  {
    seq(|retrieved|, i requires 0 <= i < |retrieved| => |gt| - First(gt, retrieved[i]))
  }

  /** The ideal gains `G, G - 1, .., 1, 0, 0, ..`. */
  function Ideal(n: nat, total: nat): (h: seq<int>)
    ensures |h| == n && forall i :: 0 <= i < n ==> h[i] == Max(total - i, 0)
  {
    seq(n, i requires 0 <= i < n => Max(total - i, 0))
  }

  ghost predicate DistinctGains(g: seq<int>, total: nat) {
    && (forall i :: 0 <= i < |g| ==> 0 <= g[i] <= total)
    && forall i, j :: 0 <= i < j < |g| && g[i] != 0 ==> g[i] != g[j]
  }

  function Staircase(n: nat, total: nat): int {
    if n == 0 || total == 0 then 0 else total + Staircase(n - 1, total - 1)
  }

  lemma {:induction false} StaircaseGrows(n: nat, total: nat)
    ensures Staircase(n, total) <= Staircase(n, total + 1)
    ensures Staircase(n + 1, total) == Staircase(n, total) + Max(total - n, 0)
  {
    if n > 0 && total > 0 { StaircaseGrows(n - 1, total - 1); }
  }

  lemma {:induction false} IdealPrefix(h: seq<int>, n: nat, total: nat)
    requires n <= |h| && h == Ideal(|h|, total)
    ensures Prefix(h, n) == Staircase(n, total)
  {
    if n > 0 {
      IdealPrefix(h, n - 1, total);
      StaircaseGrows(n - 1, total);
    }
  }

  lemma {:induction false} PrefixOfPrefix(g: seq<int>, m: nat, n: nat)
    requires n <= m <= |g|
    ensures Prefix(g[..m], n) == Prefix(g, n)
  {
    if n > 0 { PrefixOfPrefix(g, m, n - 1); }
  }

  function Without(g: seq<int>, p: nat): seq<int>
    requires p < |g|
  {
    g[..p] + g[p + 1..]
  }

  lemma {:induction false} PrefixWithout(g: seq<int>, p: nat, n: nat)
    requires p < n <= |g|
    ensures Prefix(g, n) == g[p] + Prefix(Without(g, p), n - 1)
  {
    if n == p + 1 {
      PrefixOfPrefix(g, p, p);
      PrefixOfPrefix(Without(g, p), p, p);
      assert Without(g, p)[..p] == g[..p];
    } else {
      PrefixWithout(g, p, n - 1);
      assert Without(g, p)[n - 2] == g[n - 1];
    }
  }

  lemma WithoutDistinct(g: seq<int>, p: nat, total: nat)
    requires DistinctGains(g, total) && p < |g| && g[p] == total > 0
    ensures DistinctGains(Without(g, p), total - 1)
  {
    var rest := Without(g, p);
    assert forall i :: 0 <= i < |rest| ==> rest[i] == if i < p then g[i] else g[i + 1];
  }

  /** Distinct gains up to `total` add up to at most the best staircase of as many steps. */
  lemma {:induction false} DistinctGainsSum(g: seq<int>, total: nat)
    requires DistinctGains(g, total)
    ensures Prefix(g, |g|) <= Staircase(|g|, total)
    decreases total
  {
    if total == 0 {
      AllZero(g, |g|);
    } else if total in g {
      var p :| 0 <= p < |g| && g[p] == total;
      PrefixWithout(g, p, |g|);
      WithoutDistinct(g, p, total);
      DistinctGainsSum(Without(g, p), total - 1);
    } else {
      DistinctGainsSum(g, total - 1);
      StaircaseGrows(|g|, total - 1);
    }
  }

  lemma {:induction false} AllZero(g: seq<int>, n: nat)
    requires n <= |g| && forall i :: 0 <= i < |g| ==> g[i] == 0
    ensures Prefix(g, n) == 0
  {
    if n > 0 { AllZero(g, n - 1); }
  }

  /** Prefix by prefix, distinct gains stay below the ideal ones. */
  lemma PrefixesDominated(g: seq<int>, total: nat, n: nat)
    requires DistinctGains(g, total) && n <= |g|
    ensures Prefix(g, n) <= Prefix(Ideal(|g|, total), n)
  {
    DistinctGainsSum(g[..n], total);
    PrefixOfPrefix(g, n, n);
    IdealPrefix(Ideal(|g|, total), n, total);
  }

  lemma GainsDistinct(retrieved: seq<nat>, gt: seq<nat>)
    requires Distinct(retrieved)
    ensures DistinctGains(Gains(retrieved, gt), |gt|)
  {
    var g := Gains(retrieved, gt);
    forall i, j | 0 <= i < j < |g| && g[i] != 0 ensures g[i] != g[j] {
      assert gt[First(gt, retrieved[i])] == retrieved[i];
    }
  }

  /** The rearrangement inequality: distinct gains never outweigh the ideal order, and match it only
      by being the ideal order. */
  lemma Rearrangement(w: nat -> real, g: seq<int>, total: nat)
    requires IsDiscount(w) && DistinctGains(g, total)
    ensures Weighted(w, g, |g|) <= Weighted(w, Ideal(|g|, total), |g|)
    ensures Weighted(w, g, |g|) == Weighted(w, Ideal(|g|, total), |g|) <==> g == Ideal(|g|, total)
  {
    var h, n := Ideal(|g|, total), |g|;
    var d := seq(n, i requires 0 <= i < n => h[i] - g[i]);
    forall m | 0 <= m <= n ensures Prefix(d, m) >= 0 {
      WeightedDifference(w, g, h, d, m);
      PrefixesDominated(g, total, m);
    }
    WeightedDifference(w, g, h, d, n);
    if n > 0 { WeightedBound(w, d, n); }
    if Weighted(w, d, n) == 0.0 {
      WeightedZero(w, d, n);
      forall i | 0 <= i < n ensures g[i] == h[i] { assert d[i] == 0; }
    }
  }

  // ---- the routine -----------------------------------------------------------------------------

  ghost function Dcg(w: nat -> real, retrieved: seq<nat>, gt: seq<nat>): real
  {
    Weighted(w, Gains(retrieved, gt), |retrieved|)
  }

  ghost function Idcg(w: nat -> real, limit: nat, total: nat): real
  {
    Weighted(w, Ideal(limit, total), limit)
  }

  /** What the routine returns. */
  ghost function Value(w: nat -> real, retrieved: seq<nat>, gt: seq<nat>, k: nat): real
  {
    var limit := Min(k, |retrieved|);
    if limit == 0 || gt == [] || Idcg(w, limit, |gt|) <= 0.0 then 0.0
    else Dcg(w, retrieved[..limit], gt) / Idcg(w, limit, |gt|)
  }

  /** What the routine needs of `log2`: positive and strictly increasing above 1. */
  ghost predicate IsLog(log2: real -> real) {
    && (forall x :: x > 1.0 ==> log2(x) > 0.0)
    && (forall x, y :: 1.0 < x < y ==> log2(x) < log2(y))
  }

  /** `rank + 1` for the result at position `i`, where `rank = i + 1`. */
  function RankPlusOne(i: nat): real { (i + 1) as real + 1.0 }

  /** The discount of the `i`-th result: `1 / log2(rank + 1)`. */
  function LogDiscount(log2: real -> real): nat -> real
    requires IsLog(log2)
  {
    (i: nat) => 1.0 / log2(RankPlusOne(i))
  }

  /** `w` is that discount. */
  ghost predicate DiscountsBy(w: nat -> real, log2: real -> real) {
    forall i: nat {:trigger RankPlusOne(i)} :: log2(RankPlusOne(i)) > 0.0 && w(i) == 1.0 / log2(RankPlusOne(i))
  }

  lemma LogDiscountDecreases(log2: real -> real)
    requires IsLog(log2)
    ensures IsDiscount(LogDiscount(log2))
  {
    var w := LogDiscount(log2);
    forall i: nat, j: nat | i < j ensures 0.0 < w(j) < w(i) {
      ReciprocalOrder(log2(RankPlusOne(i)), log2(RankPlusOne(j)));
    }
    forall i: nat ensures 0.0 < w(i) {
      ReciprocalOrder(log2(RankPlusOne(i)), log2(RankPlusOne(i + 1)));
    }
  }

  /** The discount of position `i`, counted from 0. */
  lemma LogDiscountAt(log2: real -> real, i: nat)
    requires IsLog(log2)
    ensures log2(i as real + 2.0) > 0.0 && LogDiscount(log2)(i) == 1.0 / log2(i as real + 2.0)
  {
    assert RankPlusOne(i) == i as real + 2.0;
  }

  lemma ReciprocalOrder(a: real, b: real)
    requires 0.0 < a < b
    ensures 0.0 < 1.0 / b < 1.0 / a
  {
    var x, y := 1.0 / a, 1.0 / b;
    assert x * a == 1.0 && y * b == 1.0;
    assert y > 0.0;
    assert (x - y) * a == y * (b - a);
  }

  /** Adds `gain / log2(rank + 1)` for the result at position `i`. */
  method AddSummand(log2: real -> real, sum: real, gain: nat, i: nat, ghost w: nat -> real,
                    ghost g: seq<int>) returns (r: real)
    requires DiscountsBy(w, log2) && i < |g| && g[i] == gain && sum == Weighted(w, g, i)
    ensures r == Weighted(w, g, i + 1)
  {
    r := sum + gain as real / log2(RankPlusOne(i));
    QuotientAsProduct(gain as real, log2(RankPlusOne(i)));
  }

  lemma QuotientAsProduct(x: real, y: real)
    requires y > 0.0
    ensures x / y == x * (1.0 / y)
  {
  }

  lemma MissedStep(w: nat -> real, g: seq<int>, i: nat)
    requires i < |g| && g[i] == 0
    ensures Weighted(w, g, i + 1) == Weighted(w, g, i)
  {
  }

  method AccumulateDcg(log2: real -> real, retrieved: seq<nat>, gt: seq<nat>, ghost w: nat -> real) returns (dcg: real)
    requires DiscountsBy(w, log2)
    ensures dcg == Dcg(w, retrieved, gt)
  {
    dcg := 0.0;
    ghost var g := Gains(retrieved, gt);
    for i := 0 to |retrieved|
      invariant dcg == Weighted(w, g, i)
    {
      var pos := First(gt, retrieved[i]);
      if pos < |gt| {
        dcg := AddSummand(log2, dcg, |gt| - pos, i, w, g);
      } else {
        MissedStep(w, g, i);
      }
    }
  }

  method AccumulateIdcg(log2: real -> real, limit: nat, total: nat, ghost w: nat -> real) returns (idcg: real)
    requires DiscountsBy(w, log2)
    ensures idcg == Idcg(w, limit, total)
  {
    idcg := 0.0;
    for i := 0 to Min(limit, total)
      invariant idcg == Weighted(w, Ideal(limit, total), i)
    {
      idcg := AddSummand(log2, idcg, total - i, i, w, Ideal(limit, total));
    }
    ZeroTail(w, Ideal(limit, total), Min(limit, total), limit);
  }

  /** `calculate_ndcg`: both accumulation loops and the final quotient. */
  method CalculateNdcg(log2: real -> real, retrieved: seq<nat>, gt: seq<nat>, k: nat) returns (r: real)
    requires IsLog(log2)
    ensures IsDiscount(LogDiscount(log2))
    ensures r == Value(LogDiscount(log2), retrieved, gt, k)
  {
    LogDiscountDecreases(log2);
    var limit := Min(k, |retrieved|);
    if limit == 0 || |gt| == 0 { return 0.0; }
    var dcg := AccumulateDcg(log2, retrieved[..limit], gt, LogDiscount(log2));
    var idcg := AccumulateIdcg(log2, limit, |gt|, LogDiscount(log2));
    r := if idcg > 0.0 then dcg / idcg else 0.0;
  }

  /** Gains that are zero from `m` on add nothing. */
  lemma {:induction false} ZeroTail(w: nat -> real, h: seq<int>, m: nat, n: nat)
    requires m <= n <= |h| && forall i :: m <= i < |h| ==> h[i] == 0
    ensures Weighted(w, h, n) == Weighted(w, h, m)
  {
    if m < n { ZeroTail(w, h, m, n - 1); }
  }

  lemma {:induction false} WeightedNonNegative(w: nat -> real, g: seq<int>, n: nat)
    requires IsDiscount(w) && n <= |g| && forall i :: 0 <= i < |g| ==> g[i] >= 0
    ensures Weighted(w, g, n) >= 0.0
    ensures n > 0 && g[0] > 0 ==> Weighted(w, g, n) > 0.0
  {
    if n > 0 {
      WeightedNonNegative(w, g, n - 1);
      assert g[n - 1] as real * w(n - 1) >= 0.0;
      if n == 1 && g[0] > 0 { assert g[0] as real * w(0) > 0.0; }
    }
  }

  lemma QuotientBound(x: real, y: real)
    requires 0.0 <= x <= y && y > 0.0
    ensures 0.0 <= x / y <= 1.0 && (x / y == 1.0 <==> x == y)
  {
  }

  /** For distinct retrieved ids the value lies in `[0, 1]`. On a non-empty comparison it is 1 exactly
      when the `i`-th result is the `i`-th ground-truth entry (and beyond the ground truth, absent). */
  lemma NdcgBounded(w: nat -> real, retrieved: seq<nat>, gt: seq<nat>, k: nat)
    requires IsDiscount(w) && Distinct(retrieved[..Min(k, |retrieved|)])
    ensures 0.0 <= Value(w, retrieved, gt, k) <= 1.0
    ensures var limit := Min(k, |retrieved|);
      limit > 0 && gt != [] ==>
        (Value(w, retrieved, gt, k) == 1.0 <==> forall i :: 0 <= i < limit ==> First(gt, retrieved[i]) == Min(i, |gt|))
  {
    var limit := Min(k, |retrieved|);
    if limit > 0 && gt != [] {
      var r := retrieved[..limit];
      DcgBounded(w, r, gt);
      QuotientBound(Dcg(w, r, gt), Idcg(w, limit, |gt|));
      assert Value(w, retrieved, gt, k) == Dcg(w, r, gt) / Idcg(w, limit, |gt|);
    }
  }

  /** The two accumulators compared. */
  lemma DcgBounded(w: nat -> real, r: seq<nat>, gt: seq<nat>)
    requires IsDiscount(w) && Distinct(r) && r != [] && gt != []
    ensures 0.0 <= Dcg(w, r, gt) <= Idcg(w, |r|, |gt|) && Idcg(w, |r|, |gt|) > 0.0
    ensures Dcg(w, r, gt) == Idcg(w, |r|, |gt|) <==> forall i :: 0 <= i < |r| ==> First(gt, r[i]) == Min(i, |gt|)
  {
    var g, h := Gains(r, gt), Ideal(|r|, |gt|);
    GainsDistinct(r, gt);
    Rearrangement(w, g, |gt|);
    WeightedNonNegative(w, g, |r|);
    WeightedNonNegative(w, h, |r|);
    IdealGainsIff(r, gt);
  }

  lemma IdealGainsIff(r: seq<nat>, gt: seq<nat>)
    ensures Gains(r, gt) == Ideal(|r|, |gt|) <==> forall i :: 0 <= i < |r| ==> First(gt, r[i]) == Min(i, |gt|)
  {
    var g, h := Gains(r, gt), Ideal(|r|, |gt|);
    if g == h {
      forall i | 0 <= i < |r| ensures First(gt, r[i]) == Min(i, |gt|) { assert g[i] == h[i]; }
    }
    if forall i :: 0 <= i < |r| ==> First(gt, r[i]) == Min(i, |gt|) {
      forall i | 0 <= i < |r| ensures g[i] == h[i] {}
    }
  }

  /** Retrieving a ground-truth prefix of distinct ids scores 1. */
  lemma PrefixScoresOne(w: nat -> real, gt: seq<nat>, n: nat, k: nat)
    requires IsDiscount(w) && Distinct(gt) && 0 < n <= |gt| && 0 < k
    ensures Value(w, gt[..n], gt, k) == 1.0
  {
    var r := gt[..n];
    forall i | 0 <= i < |r| ensures First(gt, r[i]) == i {
      assert gt[i] == r[i];
    }
    NdcgBounded(w, r, gt, k);
  }

  /** Distinctness cannot be dropped: a repeated hit pushes the value above 1. */
  lemma RepeatedHitExceedsOne(w: nat -> real, a: nat, b: nat)
    requires IsDiscount(w) && a != b
    ensures Value(w, [a, a], [a, b], 2) > 1.0
  {
    var r, gt := [a, a], [a, b];
    var g, h := Gains(r, gt), Ideal(2, 2);
    var w0, w1 := w(0), w(0 + 1);
    assert r[..2] == r && First(gt, a) == 0;
    assert Weighted(w, g, 1) == 2.0 * w0 && Weighted(w, g, 2) == 2.0 * w0 + 2.0 * w1;
    assert Weighted(w, h, 1) == 2.0 * w0 && Weighted(w, h, 2) == 2.0 * w0 + w1;
    QuotientAbove(2.0 * w0 + 2.0 * w1, 2.0 * w0 + w1);
  }

  lemma QuotientAbove(x: real, y: real)
    requires 0.0 < y < x
    ensures x / y > 1.0
  {
  }

  // ---- exactly when the value cannot exceed 1 --------------------------------------------------

  /** Prefix by prefix, the gains are worth no more than the ideal ones. */
  ghost predicate Dominated(g: seq<int>, total: nat) {
    forall m :: 0 <= m <= |g| ==> Prefix(g, m) <= Prefix(Ideal(|g|, total), m)
  }

  function Excess(g: seq<int>, total: nat): (d: seq<int>)
    ensures |d| == |g| && forall i :: 0 <= i < |g| ==> d[i] == Ideal(|g|, total)[i] - g[i]
  {
    seq(|g|, i requires 0 <= i < |g| => Ideal(|g|, total)[i] - g[i])
  }

  lemma DominatedBound(w: nat -> real, g: seq<int>, total: nat)
    requires IsDiscount(w) && Dominated(g, total)
    ensures Weighted(w, g, |g|) <= Weighted(w, Ideal(|g|, total), |g|)
  {
    var h, d := Ideal(|g|, total), Excess(g, total);
    forall m | 0 <= m <= |g| ensures Prefix(d, m) >= 0 { WeightedDifference(w, g, h, d, m); }
    WeightedDifference(w, g, h, d, |g|);
    if g != [] { WeightedBound(w, d, |g|); }
  }

  /** A positive decreasing tail, at most `eps`. */
  function TailAt(eps: real, i: nat): real { eps / (i + 1) as real }

  function BeforeAt(m: nat, i: nat): real { if i < m then 1.0 else 0.0 }

  function Tail(eps: real): nat -> real { (i: nat) => TailAt(eps, i) }

  function Before(m: nat): nat -> real { (i: nat) => BeforeAt(m, i) }

  /** Nearly 1 before position `m`, nearly 0 from it on. */
  function Cliff(m: nat, eps: real): nat -> real { (i: nat) => BeforeAt(m, i) + TailAt(eps, i) }

  lemma TailDecreases(eps: real, i: nat, j: nat)
    requires eps > 0.0 && i < j
    ensures 0.0 < TailAt(eps, j) < TailAt(eps, i) <= eps
  {
    ShareDecreases(eps, (i + 1) as real, (j + 1) as real);
    if i > 0 { ShareDecreases(eps, 1.0, (i + 1) as real); }
  }

  lemma ShareDecreases(eps: real, x: real, y: real)
    requires eps > 0.0 && 0.0 < x < y
    ensures 0.0 < eps / y < eps / x
  {
    var p, q := eps / x, eps / y;
    assert p * x == eps && q * y == eps;
    PositiveFactor(-q, y);
    if q >= p { ScaledLess(x, y, q); }
  }

  lemma CliffIsDiscount(m: nat, eps: real)
    requires eps > 0.0
    ensures IsDiscount(Cliff(m, eps))
  {
    forall i: nat, j: nat | i < j ensures 0.0 < Cliff(m, eps)(j) < Cliff(m, eps)(i) { TailDecreases(eps, i, j); }
    forall i: nat ensures 0.0 < Cliff(m, eps)(i) { TailDecreases(eps, i, i + 1); }
  }

  lemma {:induction false} WeightedSum(w: nat -> real, a: nat -> real, b: nat -> real, d: seq<int>, n: nat)
    requires n <= |d| && forall i: nat :: w(i) == a(i) + b(i)
    ensures Weighted(w, d, n) == Weighted(a, d, n) + Weighted(b, d, n)
  {
    if n > 0 {
      WeightedSum(w, a, b, d, n - 1);
      TwoTerms(d[n - 1] as real, a(n - 1), b(n - 1));
    }
  }

  lemma TwoTerms(x: real, a: real, b: real)
    ensures x * (a + b) == x * a + x * b
  {
  }

  lemma {:induction false} BeforeSum(m: nat, d: seq<int>, n: nat)
    requires n <= |d|
    ensures Weighted(Before(m), d, n) == Prefix(d, Min(n, m)) as real
  {
    if n > 0 { BeforeSum(m, d, n - 1); }
  }

  function Times(n: nat, b: real): real { if n == 0 then 0.0 else Times(n - 1, b) + b }

  lemma {:induction false} TimesIs(n: nat, b: real)
    ensures Times(n, b) == n as real * b
  {
    if n > 0 {
      TimesIs(n - 1, b);
      TwoTerms(b, (n - 1) as real, 1.0);
    }
  }

  predicate TermsAtMost(w: nat -> real, d: seq<int>, b: real) {
    forall i :: 0 <= i < |d| ==> d[i] as real * w(i) <= b
  }

  lemma {:induction false} SumAtMost(w: nat -> real, d: seq<int>, n: nat, b: real)
    requires n <= |d| && TermsAtMost(w, d, b)
    ensures Weighted(w, d, n) <= Times(n, b)
  {
    if n > 0 { SumAtMost(w, d, n - 1, b); }
  }

  lemma TermBound(x: real, t: real, total: real, eps: real)
    requires x <= total && 0.0 <= total && 0.0 < t <= eps
    ensures x * t <= (total + 1.0) * eps
  {
    if x >= 0.0 {
      ScaledLess(t, eps, x);
      ScaledLess(x, total + 1.0, eps);
    } else {
      NonNegative(-x, t);
      NonNegative(total + 1.0, eps);
    }
  }

  lemma NonNegative(x: real, y: real)
    requires x >= 0.0 && y >= 0.0
    ensures x * y >= 0.0
  {
  }

  lemma Share(x: real, y: real)
    requires x > 0.0 && y > 0.0
    ensures x / y > 0.0 && y * (x / y) == x
  {
    var q := x / y;
    assert q * y == x;
    if q <= 0.0 { NonNegative(-q, y); }
  }

  /** A tail small enough that `n` terms up to `total` stay below 1 together. */
  lemma TailIsSmall(d: seq<int>, total: nat, b: real, eps: real)
    requires b == 1.0 / (|d| as real + 1.0) && eps == b / (total as real + 1.0)
    requires forall i :: 0 <= i < |d| ==> d[i] <= total
    ensures eps > 0.0 && Weighted(Tail(eps), d, |d|) < 1.0
  {
    Share(1.0, |d| as real + 1.0);
    Share(b, total as real + 1.0);
    forall i | 0 <= i < |d| ensures d[i] as real * Tail(eps)(i) <= b { TailTerm(d[i], total, b, eps, i); }
    SumAtMost(Tail(eps), d, |d|, b);
    TimesIs(|d| + 1, b);
  }

  lemma TailTerm(x: int, total: nat, b: real, eps: real, i: nat)
    requires x <= total && eps > 0.0 && (total as real + 1.0) * eps == b
    ensures x as real * TailAt(eps, i) <= b
  {
    TailDecreases(eps, i, i + 1);
    TermBound(x as real, TailAt(eps, i), total as real, eps);
  }

  /** Where one prefix is worth more than the ideal one, some discount shows it. */
  lemma CliffExceeds(g: seq<int>, total: nat, m: nat)
    requires m <= |g| && Prefix(g, m) > Prefix(Ideal(|g|, total), m)
    requires forall i :: 0 <= i < |g| ==> 0 <= g[i]
    ensures exists w: nat -> real :: IsDiscount(w) && Weighted(w, g, |g|) > Weighted(w, Ideal(|g|, total), |g|)
  {
    var h, d, n := Ideal(|g|, total), Excess(g, total), |g|;
    var b := 1.0 / (n as real + 1.0);
    var eps := b / (total as real + 1.0);
    TailIsSmall(d, total, b, eps);
    var w := Cliff(m, eps);
    CliffIsDiscount(m, eps);
    WeightedDifference(w, g, h, d, m);
    WeightedDifference(w, g, h, d, n);
    WeightedSum(w, Before(m), Tail(eps), d, n);
    BeforeSum(m, d, n);
  }

  /** What the routine returns for results that may repeat: never negative, and at most 1 under every
      discount exactly when no prefix of the gains is worth more than the ideal prefix. */
  lemma NdcgAtMostOneIff(retrieved: seq<nat>, gt: seq<nat>, k: nat)
    requires Min(k, |retrieved|) > 0 && gt != []
    ensures forall w: nat -> real | IsDiscount(w) :: Value(w, retrieved, gt, k) >= 0.0
    ensures (forall w: nat -> real | IsDiscount(w) :: Value(w, retrieved, gt, k) <= 1.0)
       <==> Dominated(Gains(retrieved[..Min(k, |retrieved|)], gt), |gt|)
  {
    var limit := Min(k, |retrieved|);
    var r := retrieved[..limit];
    var g := Gains(r, gt);
    forall w: nat -> real | IsDiscount(w)
      ensures Value(w, retrieved, gt, k) >= 0.0
      ensures Value(w, retrieved, gt, k) <= 1.0 <==> Weighted(w, g, |g|) <= Weighted(w, Ideal(|g|, |gt|), |g|)
    {
      ValueVersusOne(w, retrieved, gt, k);
    }
    if Dominated(g, |gt|) {
      forall w: nat -> real | IsDiscount(w) ensures Value(w, retrieved, gt, k) <= 1.0 { DominatedBound(w, g, |gt|); }
    } else {
      var m :| 0 <= m <= |g| && Prefix(g, m) > Prefix(Ideal(|g|, |gt|), m);
      CliffExceeds(g, |gt|, m);
    }
  }

  lemma ValueVersusOne(w: nat -> real, retrieved: seq<nat>, gt: seq<nat>, k: nat)
    requires IsDiscount(w) && Min(k, |retrieved|) > 0 && gt != []
    ensures var g := Gains(retrieved[..Min(k, |retrieved|)], gt);
      && Value(w, retrieved, gt, k) >= 0.0
      && (Value(w, retrieved, gt, k) <= 1.0 <==> Weighted(w, g, |g|) <= Weighted(w, Ideal(|g|, |gt|), |g|))
  {
    var limit := Min(k, |retrieved|);
    var g, h := Gains(retrieved[..limit], gt), Ideal(limit, |gt|);
    WeightedNonNegative(w, g, limit);
    WeightedNonNegative(w, h, limit);
    var x, y := Weighted(w, g, limit), Weighted(w, h, limit);
    if x <= y { QuotientBound(x, y); } else { QuotientAbove(x, y); }
  }
}
