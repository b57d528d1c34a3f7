/** Complex Cauchy-Schwarz in every dimension and what it gives the similarity scores: the clamps
    never fire, global phase is invisible, cached norms give the true Euclidean distance, and the
    three projective scores order every corpus alike. */
module Overlap {
  import opened ComplexVectors

  // ---- squared norms ---------------------------------------------------------------------------

  lemma SquareNonNegative(x: real)
    ensures x * x >= 0.0
  {
  }

  lemma NormSqrNonNegative(z: Complex)
    ensures NormSqr(z) >= 0.0
  {
    SquareNonNegative(z.re);
    SquareNonNegative(z.im);
  }

  lemma {:induction false} NormToMonotone(a: Vector, m: nat, n: nat)
    requires m <= n <= |a|
    ensures 0.0 <= NormTo(a, m) <= NormTo(a, n)
    decreases n
  {
    if m < n {
      NormToMonotone(a, m, n - 1);
      NormSqrNonNegative(a[n - 1]);
    } else if m > 0 {
      NormToMonotone(a, m - 1, m - 1);
      NormSqrNonNegative(a[m - 1]);
    }
  }

  // ---- Cauchy-Schwarz --------------------------------------------------------------------------

  /** `|conj(x) y|^2 = |x|^2 |y|^2`. */
  lemma NormSqrConjMul(x: Complex, y: Complex)
    ensures NormSqr(ConjMul(x, y)) == NormSqr(x) * NormSqr(y)
  {
  }

  /** The inequality in the plane: `(s . t)^2 <= |s|^2 |t|^2`. */
  lemma PlaneCauchySchwarz(s: Complex, t: Complex)
    ensures var c := s.re * t.re + s.im * t.im; c * c <= NormSqr(s) * NormSqr(t)
  {
    var c := s.re * t.re + s.im * t.im;
    var d := s.re * t.im - s.im * t.re;
    assert NormSqr(s) * NormSqr(t) == c * c + d * d;
    SquareNonNegative(d);
  }

  lemma ProductMonotone(x: real, y: real, z: real)
    requires x <= y && 0.0 <= z
    ensures x * z <= y * z
  {
  }

  lemma StrictProduct(x: real, y: real)
    requires x > 0.0 && y > 0.0
    ensures x * y > 0.0
  {
  }

  lemma SquaresIncrease(x: real, y: real)
    requires 0.0 <= x < y
    ensures x * x < y * y
  {
    StrictProduct(y - x, y + x);
    assert (y - x) * (y + x) == y * y - x * x;
  }

  lemma SquaresOrdered(x: real, y: real)
    requires 0.0 <= x && 0.0 <= y
    ensures x < y <==> x * x < y * y
  {
    if x < y { SquaresIncrease(x, y); } else if y < x { SquaresIncrease(y, x); }
  }

  /** `c^2 <= p q` with `p, q >= 0` gives `2c <= p + q`. */
  lemma GeometricMean(c: real, p: real, q: real)
    requires 0.0 <= p && 0.0 <= q && c * c <= p * q
    ensures 2.0 * c <= p + q
  {
    SquareNonNegative(p - q);
    var s := p + q;
    assert s * s == (p - q) * (p - q) + 4.0 * (p * q);
    assert (2.0 * c) * (2.0 * c) == 4.0 * (c * c);
    if c >= 0.0 { SquaresOrdered(s, 2.0 * c); }
  }

  /** One more component on either side keeps the inequality. */
  lemma CauchySchwarzStep(s: Complex, a: real, b: real, x: Complex, y: Complex)
    requires 0.0 <= a && 0.0 <= b && NormSqr(s) <= a * b
    ensures NormSqr(Add(s, ConjMul(x, y))) <= (a + NormSqr(x)) * (b + NormSqr(y))
  {
    var t, X, Y := ConjMul(x, y), NormSqr(x), NormSqr(y);
    var c := s.re * t.re + s.im * t.im;
    NormSqrConjMul(x, y);
    NormSqrNonNegative(x);
    NormSqrNonNegative(y);
    PlaneCauchySchwarz(s, t);
    CrossBound(NormSqr(s), a, b, X, Y, c);
    NormSqrAdd(s, t);
    Expand(a, X, b, Y);
  }

  lemma NormSqrAdd(s: Complex, t: Complex)
    ensures NormSqr(Add(s, t)) == NormSqr(s) + NormSqr(t) + 2.0 * (s.re * t.re + s.im * t.im)
  {
  }

  lemma Expand(a: real, x: real, b: real, y: real)
    ensures (a + x) * (b + y) == a * b + a * y + b * x + x * y
  {
  }

  lemma CrossBound(n: real, a: real, b: real, X: real, Y: real, c: real)
    requires 0.0 <= a && 0.0 <= b && 0.0 <= X && 0.0 <= Y && n <= a * b && c * c <= n * (X * Y)
    ensures 2.0 * c <= a * Y + b * X
  {
    ProductMonotone(n, a * b, X * Y);
    assert (a * b) * (X * Y) == (a * Y) * (b * X);
    GeometricMean(c, a * Y, b * X);
  }

  /** `|<a|b>|^2 <= |a|^2 |b|^2` over the first `n` components, for every `n`. */
  lemma {:induction false} CauchySchwarzTo(a: Vector, b: Vector, n: nat)
    requires n <= |a| && n <= |b|
    ensures NormSqr(DotTo(a, b, n)) <= NormTo(a, n) * NormTo(b, n)
  {
    if n > 0 {
      CauchySchwarzTo(a, b, n - 1);
      NormToMonotone(a, n - 1, n - 1);
      NormToMonotone(b, n - 1, n - 1);
      CauchySchwarzStep(DotTo(a, b, n - 1), NormTo(a, n - 1), NormTo(b, n - 1), a[n - 1], b[n - 1]);
    }
  }

  /** Complex Cauchy-Schwarz for vectors of any, even different, dimension. */
  lemma CauchySchwarz(a: Vector, b: Vector)
    ensures 0.0 <= NormSqr(Dot(a, b)) <= NormSquared(a) * NormSquared(b)
  {
    var n := Common(a, b);
    CauchySchwarzTo(a, b, n);
    NormToMonotone(a, n, |a|);
    NormToMonotone(b, n, |b|);
    ProductsOrdered(NormTo(a, n), NormSquared(a), NormTo(b, n), NormSquared(b));
    NormSqrNonNegative(Dot(a, b));
  }

  lemma ProductsOrdered(x: real, x': real, y: real, y': real)
    requires 0.0 <= x <= x' && 0.0 <= y <= y'
    ensures x * y <= x' * y'
  {
    ProductMonotone(x, x', y);
    ProductMonotone(y, y', x');
  }

  // ---- the projective overlap ------------------------------------------------------------------

  const Floor: real := 0.000000000001

  function MaxReal(x: real, y: real): real { if x < y then y else x }

  function Clamp(x: real, lo: real, hi: real): real { if x < lo then lo else if x > hi then hi else x }

  function Denominator(na: real, nb: real): (d: real)
    ensures d >= Floor && d >= na * nb && (d == Floor || d == na * nb)
  {
    MaxReal(na * nb, Floor)
  }

  /** `projective_overlap`: `|<a|b>|^2` over the floored norm product, clamped to `[0, 1]`. */
  function ProjectiveOverlap(a: Vector, b: Vector): real {
    Clamp(NormSqr(Dot(a, b)) / Denominator(NormSquared(a), NormSquared(b)), 0.0, 1.0)
  }

  lemma RatioWithin(x: real, d: real)
    requires d > 0.0 && 0.0 <= x <= d
    ensures 0.0 <= x / d <= 1.0
  {
  }

  /** The ratio already lies in `[0, 1]`: neither the clamp nor the floor moves it out or in. */
  lemma ClampNeverFires(a: Vector, b: Vector)
    ensures var ratio := NormSqr(Dot(a, b)) / Denominator(NormSquared(a), NormSquared(b));
      0.0 <= ratio <= 1.0 && ProjectiveOverlap(a, b) == ratio
  {
    CauchySchwarz(a, b);
    RatioWithin(NormSqr(Dot(a, b)), Denominator(NormSquared(a), NormSquared(b)));
  }

  lemma QuotientsEqual(x: real, d: real, e: real)
    requires d > 0.0 && e > 0.0
    ensures x / d == x / e <==> x == 0.0 || d == e
  {
    var p, q := x / d, x / e;
    assert p * d == x && q * e == x;
    if p == q && x != 0.0 {
      assert p * (d - e) == 0.0;
      assert p != 0.0;
    }
  }

  /** The documented `|<z,w>|^2 / (|z|^2 |w|^2)` is what is returned exactly when the norm product
      reaches the floor, or the vectors are orthogonal. */
  lemma OverlapIsDocumentedRatioIff(a: Vector, b: Vector)
    requires NormSquared(a) * NormSquared(b) > 0.0
    ensures ProjectiveOverlap(a, b) == NormSqr(Dot(a, b)) / (NormSquared(a) * NormSquared(b))
      <==> NormSquared(a) * NormSquared(b) >= Floor || NormSqr(Dot(a, b)) == 0.0
  {
    ClampNeverFires(a, b);
    QuotientsEqual(NormSqr(Dot(a, b)), Denominator(NormSquared(a), NormSquared(b)), NormSquared(a) * NormSquared(b));
  }

  /** Short vectors fall below it: a vector of length 1/10,000 overlaps itself by 1/10,000, not by 1. */
  lemma ShortVectorsFallShort()
    ensures var v := [Complex(0.0001, 0.0)];
      && NormSqr(Dot(v, v)) / (NormSquared(v) * NormSquared(v)) == 1.0
      && ProjectiveOverlap(v, v) == 0.0001
  {
    var v := [Complex(0.0001, 0.0)];
    assert NormTo(v, 0) == 0.0 && DotTo(v, v, 0) == Zero;
    assert NormTo(v, 1) == 0.00000001 && DotTo(v, v, 1) == Complex(0.00000001, 0.0);
    assert NormSquared(v) == 0.00000001 && Dot(v, v) == Complex(0.00000001, 0.0);
  }

  // ---- global phase ----------------------------------------------------------------------------

  function Scale(u: Complex, a: Vector): (r: Vector)
    ensures |r| == |a| && forall i :: 0 <= i < |a| ==> r[i] == Mul(u, a[i])
  {
    seq(|a|, i requires 0 <= i < |a| => Mul(u, a[i]))
  }

  lemma NormSqrMul(u: Complex, z: Complex)
    ensures NormSqr(Mul(u, z)) == NormSqr(u) * NormSqr(z)
  {
  }

  lemma Distribute(x: real, y: real, z: real)
    ensures x * (y + z) == x * y + x * z
  {
  }

  lemma {:induction false} ScaledNorm(u: Complex, a: Vector, n: nat)
    requires n <= |a|
    ensures NormTo(Scale(u, a), n) == NormSqr(u) * NormTo(a, n)
  {
    if n > 0 {
      ScaledNorm(u, a, n - 1);
      NormSqrMul(u, a[n - 1]);
      Distribute(NormSqr(u), NormTo(a, n - 1), NormSqr(a[n - 1]));
    }
  }

  lemma MulDistributes(u: Complex, x: Complex, y: Complex)
    ensures Add(Mul(u, x), Mul(u, y)) == Mul(u, Add(x, y))
  {
  }

  lemma ConjMulScaled(u: Complex, x: Complex, y: Complex)
    ensures ConjMul(x, Mul(u, y)) == Mul(u, ConjMul(x, y))
    ensures ConjMul(Mul(u, x), y) == Mul(Conj(u), ConjMul(x, y))
  {
    RightScaled(u, x, y);
    LeftScaled(u, x, y);
  }

  lemma RightScaledRe(u: Complex, x: Complex, y: Complex)
    ensures ConjMul(x, Mul(u, y)).re == Mul(u, ConjMul(x, y)).re
  {
    var a, b, c, d, e, f := u.re, u.im, x.re, x.im, y.re, y.im;
    assert c * (a * e - b * f) + d * (a * f + b * e) == a * (c * e + d * f) - b * (c * f - d * e);
  }

  lemma RightScaledIm(u: Complex, x: Complex, y: Complex)
    ensures ConjMul(x, Mul(u, y)).im == Mul(u, ConjMul(x, y)).im
  {
    var a, b, c, d, e, f := u.re, u.im, x.re, x.im, y.re, y.im;
    assert c * (a * f + b * e) - d * (a * e - b * f) == a * (c * f - d * e) + b * (c * e + d * f);
  }

  lemma RightScaled(u: Complex, x: Complex, y: Complex)
    ensures ConjMul(x, Mul(u, y)) == Mul(u, ConjMul(x, y))
  {
    RightScaledRe(u, x, y);
    RightScaledIm(u, x, y);
  }

  lemma LeftScaled(u: Complex, x: Complex, y: Complex)
    ensures ConjMul(Mul(u, x), y) == Mul(Conj(u), ConjMul(x, y))
  {
    var a, b, c, d, e, f := u.re, u.im, x.re, x.im, y.re, y.im;
    assert (a * c - b * d) * e + (a * d + b * c) * f == a * (c * e + d * f) - (-b) * (c * f - d * e);
    assert (a * c - b * d) * f - (a * d + b * c) * e == a * (c * f - d * e) + (-b) * (c * e + d * f);
  }

  lemma {:induction false} ScaledDot(u: Complex, a: Vector, b: Vector, n: nat)
    requires n <= |a| && n <= |b|
    ensures DotTo(a, Scale(u, b), n) == Mul(u, DotTo(a, b, n))
    ensures DotTo(Scale(u, a), b, n) == Mul(Conj(u), DotTo(a, b, n))
  {
    if n > 0 {
      ScaledDot(u, a, b, n - 1);
      ConjMulScaled(u, a[n - 1], b[n - 1]);
      MulDistributes(u, DotTo(a, b, n - 1), ConjMul(a[n - 1], b[n - 1]));
      MulDistributes(Conj(u), DotTo(a, b, n - 1), ConjMul(a[n - 1], b[n - 1]));
    }
  }

  /** `P(z, w)` does not change when either vector is multiplied by a unit complex number. */
  lemma PhaseInvariance(u: Complex, a: Vector, b: Vector)
    requires NormSqr(u) == 1.0
    ensures ProjectiveOverlap(a, Scale(u, b)) == ProjectiveOverlap(a, b)
    ensures ProjectiveOverlap(Scale(u, a), b) == ProjectiveOverlap(a, b)
  {
    ScaledDot(u, a, b, Common(a, b));
    NormSqrMul(u, Dot(a, b));
    NormSqrMul(Conj(u), Dot(a, b));
    ScaledNorm(u, a, |a|);
    ScaledNorm(u, b, |b|);
    assert NormSqr(Conj(u)) == 1.0;
  }

  // ---- the index's similarity score ------------------------------------------------------------

  datatype Metric = Cosine | CPO | Sine | Chordal | Euclidean

  /** `sqrt` on the non-negative reals. */
  ghost predicate IsSqrt(sqrt: real -> real) {
    forall x :: x >= 0.0 ==> sqrt(x) >= 0.0 && sqrt(x) * sqrt(x) == x
  }

  /** `similarity_score_slices_with_metric`, from the query, the slot's vector and both cached norms. */
  function Similarity(sqrt: real -> real, q: Vector, v: Vector, qn: real, vn: real, metric: Metric): real
    requires IsSqrt(sqrt)
  {
    var denom := Denominator(qn, vn);
    assert sqrt(denom) * sqrt(denom) == denom;
    match metric
    case Cosine => Clamp(Dot(q, v).re / sqrt(denom), -1.0, 1.0)
    case CPO => Clamp(NormSqr(Dot(q, v)) / denom, 0.0, 1.0)
    case Sine =>
      var p := Clamp(NormSqr(Dot(q, v)) / denom, 0.0, 1.0);
      1.0 - sqrt(MaxReal(1.0 - p, 0.0))
    case Chordal =>
      var p := Clamp(NormSqr(Dot(q, v)) / denom, 0.0, 1.0);
      2.0 - sqrt(MaxReal(2.0 * (1.0 - sqrt(p)), 0.0))
    case Euclidean => -sqrt(MaxReal(qn + vn - 2.0 * Dot(q, v).re, 0.0))
  }

  lemma SqrtOrdered(sqrt: real -> real, x: real, y: real)
    requires IsSqrt(sqrt) && 0.0 <= x && 0.0 <= y
    ensures x < y <==> sqrt(x) < sqrt(y)
  {
    SquaresOrdered(sqrt(x), sqrt(y));
  }

  lemma SqrtOfUnit(sqrt: real -> real, p: real)
    requires IsSqrt(sqrt) && 0.0 <= p <= 1.0
    ensures 0.0 <= sqrt(p) <= 1.0
  {
    SquaresOrdered(1.0, sqrt(p));
  }

  /** The three projective scores rank any two slots the same way, whatever the cached norms. */
  lemma ProjectiveScoresAgree(sqrt: real -> real, q: Vector, qn: real, v: Vector, vn: real, w: Vector, wn: real)
    requires IsSqrt(sqrt)
    ensures Similarity(sqrt, q, v, qn, vn, CPO) < Similarity(sqrt, q, w, qn, wn, CPO)
       <==> Similarity(sqrt, q, v, qn, vn, Sine) < Similarity(sqrt, q, w, qn, wn, Sine)
    ensures Similarity(sqrt, q, v, qn, vn, CPO) < Similarity(sqrt, q, w, qn, wn, CPO)
       <==> Similarity(sqrt, q, v, qn, vn, Chordal) < Similarity(sqrt, q, w, qn, wn, Chordal)
  {
    var p := Similarity(sqrt, q, v, qn, vn, CPO);
    var r := Similarity(sqrt, q, w, qn, wn, CPO);
    SqrtOrdered(sqrt, 1.0 - r, 1.0 - p);
    SqrtOrdered(sqrt, p, r);
    SqrtOfUnit(sqrt, p);
    SqrtOfUnit(sqrt, r);
    SqrtOrdered(sqrt, 2.0 * (1.0 - sqrt(r)), 2.0 * (1.0 - sqrt(p)));
  }

  /** With true norms the cosine ratio is within `[-1, 1]` before it is clamped. */
  lemma CosineClampNeverFires(sqrt: real -> real, q: Vector, v: Vector)
    requires IsSqrt(sqrt)
    ensures var s := sqrt(Denominator(NormSquared(q), NormSquared(v)));
      s > 0.0 && -1.0 <= Dot(q, v).re / s <= 1.0
      && Similarity(sqrt, q, v, NormSquared(q), NormSquared(v), Cosine) == Dot(q, v).re / s
  {
    var d := Denominator(NormSquared(q), NormSquared(v));
    var s, z := sqrt(d), Dot(q, v);
    CauchySchwarz(q, v);
    SquareNonNegative(z.im);
    assert s * s == d && s >= 0.0;
    assert s > 0.0;
    assert z.re * z.re <= s * s;
    AbsoluteBound(z.re, s);
  }

  lemma NegatedQuotient(x: real, s: real)
    requires s > 0.0
    ensures -x / s == -(x / s)
  {
    var p, q := -x / s, x / s;
    assert p * s == -x && q * s == x;
    assert (p + q) * s == p * s + q * s;
  }

  lemma AbsoluteBound(x: real, s: real)
    requires s > 0.0 && x * x <= s * s
    ensures -1.0 <= x / s <= 1.0
  {
    if x >= 0.0 {
      SquaresOrdered(s, x);
      RatioWithin(x, s);
    } else {
      SquaresOrdered(s, -x);
      RatioWithin(-x, s);
      NegatedQuotient(x, s);
    }
  }

  /** The first `n` terms of the componentwise squared distance. */
  function DistanceTo(a: Vector, b: Vector, n: nat): real
    requires n <= |a| && n <= |b|
  {
    if n == 0 then 0.0
    else DistanceTo(a, b, n - 1) + NormSqr(Sub(a[n - 1], b[n - 1]))
  }

  lemma SquareOfDifference(x: real, y: real)
    ensures (x - y) * (x - y) == x * x + y * y - 2.0 * (x * y)
  {
  }

  lemma PolarTerm(x: Complex, y: Complex)
    ensures NormSqr(Sub(x, y)) == NormSqr(x) + NormSqr(y) - 2.0 * ConjMul(x, y).re
    ensures NormSqr(Sub(x, y)) >= 0.0
  {
    SquareOfDifference(x.re, y.re);
    SquareOfDifference(x.im, y.im);
    NormSqrNonNegative(Sub(x, y));
  }

  lemma {:induction false} PolarIdentity(a: Vector, b: Vector, n: nat)
    requires n <= |a| && n <= |b|
    ensures NormTo(a, n) + NormTo(b, n) - 2.0 * DotTo(a, b, n).re == DistanceTo(a, b, n)
    ensures DistanceTo(a, b, n) >= 0.0
  {
    if n > 0 {
      PolarIdentity(a, b, n - 1);
      PolarTerm(a[n - 1], b[n - 1]);
    }
  }

  /** With true cached norms the Euclidean score is minus the componentwise distance. */
  lemma EuclideanScoreIsDistance(sqrt: real -> real, q: Vector, v: Vector)
    requires IsSqrt(sqrt) && |q| == |v|
    ensures Similarity(sqrt, q, v, NormSquared(q), NormSquared(v), Euclidean) == -sqrt(DistanceTo(q, v, |q|))
  {
    PolarIdentity(q, v, |q|);
  }

  /** `write_vector`: copies as many components as fit and accumulates their squared norm as it goes; of
      data of the index's dimension that is all of them. */
  method WriteVector(data: Vector, dimension: nat, slot: Vector) returns (written: Vector, normSq: real)
    requires |slot| == dimension
    ensures var n := if |data| <= dimension then |data| else dimension;
      written == data[..n] + slot[n..] && normSq == NormTo(data, n)
    ensures |data| == dimension ==> written == data && normSq == NormSquared(data)
  {
    written, normSq := slot, 0.0;
    var len := if |data| <= dimension then |data| else dimension;
    for i := 0 to len
      invariant |written| == dimension && normSq == NormTo(data, i)
      invariant written == data[..i] + slot[i..]
    {
      normSq := normSq + NormSqr(data[i]);
      written := written[i := data[i]];
    }
    assert len == dimension == |data| ==> data[..len] == data && slot[len..] == [];
  }
}
