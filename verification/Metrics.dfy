/** What the five scores mean geometrically: distances between vectors, between lines, and between vectors
    up to a global phase; and that exact search returns the nearest slots by them. */
module Metrics {
  import opened Basics
  import opened Ranking
  import opened ComplexVectors
  import opened Overlap
  import opened ExactSearch

  predicate Unit(v: Vector) { NormSquared(v) == 1.0 }

  /** The score of a stored vector under its true norm. */
  ghost function TrueScore(sqrt: real -> real, q: Vector, v: Vector, m: Metric): real
    requires IsSqrt(sqrt)
  {
    Similarity(sqrt, q, v, NormSquared(q), NormSquared(v), m)
  }

  /** With true norms the projective scores are functions of the documented overlap. */
  lemma ProjectiveScoresMean(sqrt: real -> real, q: Vector, v: Vector)
    requires IsSqrt(sqrt)
    ensures var p := ProjectiveOverlap(q, v);
      && 0.0 <= p <= 1.0 && TrueScore(sqrt, q, v, CPO) == p
      && TrueScore(sqrt, q, v, Sine) == 1.0 - sqrt(1.0 - p)
      && sqrt(p) <= 1.0 && TrueScore(sqrt, q, v, Chordal) == 2.0 - sqrt(2.0 * (1.0 - sqrt(p)))
  {
    ClampNeverFires(q, v);
    SqrtOfUnit(sqrt, ProjectiveOverlap(q, v));
  }

  lemma UnitOverlap(q: Vector, v: Vector)
    requires Unit(q) && Unit(v)
    ensures ProjectiveOverlap(q, v) == NormSqr(Dot(q, v))
  {
    ClampNeverFires(q, v);
  }

  // ---- distances to multiples ------------------------------------------------------------------

  /** Squared distance from `q` to the multiple `u v`, for unit vectors. */
  lemma DistanceToMultiple(q: Vector, v: Vector, u: Complex)
    requires Unit(q) && Unit(v) && |q| == |v|
    ensures DistanceTo(q, Scale(u, v), |q|) == 1.0 + NormSqr(u) - 2.0 * Mul(u, Dot(q, v)).re
  {
    PolarIdentity(q, Scale(u, v), |q|);
    ScaledNorm(u, v, |q|);
    ScaledDot(u, q, v, |q|);
  }

  lemma CompleteSquare(u: Complex, z: Complex)
    ensures NormSqr(u) - 2.0 * Mul(u, z).re == NormSqr(Sub(u, Conj(z))) - NormSqr(z)
  {
    SquareOfDifference(u.re, z.re);
    SquareOfDifference(u.im, -z.im);
  }

  lemma MultipleDistance(q: Vector, v: Vector, u: Complex)
    requires Unit(q) && Unit(v) && |q| == |v|
    ensures var d := DistanceTo(q, Scale(u, v), |q|);
      d >= 1.0 - NormSqr(Dot(q, v)) && (u == Conj(Dot(q, v)) ==> d == 1.0 - NormSqr(Dot(q, v)))
  {
    var z := Dot(q, v);
    DistanceToMultiple(q, v, u);
    CompleteSquare(u, z);
    NormSqrNonNegative(Sub(u, Conj(z)));
    assert u == Conj(z) ==> Sub(u, Conj(z)) == Zero;
  }

  /** `d` is the distance from `q` to the complex line of `v`: no multiple of `v` is nearer, and one is as
      near. */
  ghost predicate DistanceToLine(q: Vector, v: Vector, d: real)
    requires |q| == |v|
  {
    && d >= 0.0 && (forall u: Complex :: d * d <= DistanceTo(q, Scale(u, v), |q|))
    && exists u: Complex :: d * d == DistanceTo(q, Scale(u, v), |q|)
  }

  lemma LineDistance(q: Vector, v: Vector, d: real)
    requires Unit(q) && Unit(v) && |q| == |v| && d >= 0.0 && d * d == 1.0 - NormSqr(Dot(q, v))
    ensures DistanceToLine(q, v, d)
  {
    forall u: Complex ensures d * d <= DistanceTo(q, Scale(u, v), |q|) {
      MultipleDistance(q, v, u);
    }
    MultipleDistance(q, v, Conj(Dot(q, v)));
  }

  lemma SineRoot(sqrt: real -> real, q: Vector, v: Vector) returns (d: real)
    requires IsSqrt(sqrt) && Unit(q) && Unit(v)
    ensures d == 1.0 - TrueScore(sqrt, q, v, Sine) && d >= 0.0 && d * d == 1.0 - NormSqr(Dot(q, v))
  {
    ProjectiveScoresMean(sqrt, q, v);
    UnitOverlap(q, v);
    d := 1.0 - TrueScore(sqrt, q, v, Sine);
    RootSquared(sqrt, 1.0 - ProjectiveOverlap(q, v), d);
  }

  /** The Sine score is one minus the distance from `q` to the complex line of `v`. */
  lemma SineIsDistanceToLine(sqrt: real -> real, q: Vector, v: Vector)
    requires IsSqrt(sqrt) && Unit(q) && Unit(v) && |q| == |v|
    ensures DistanceToLine(q, v, 1.0 - TrueScore(sqrt, q, v, Sine))
  {
    var d := SineRoot(sqrt, q, v);
    LineDistance(q, v, d);
  }

  lemma RootSquared(sqrt: real -> real, x: real, d: real)
    requires IsSqrt(sqrt) && x >= 0.0 && d == sqrt(x)
    ensures d >= 0.0 && d * d == x
  {
  }

  lemma RealPartBound(z: Complex, r: real)
    requires r >= 0.0 && r * r == NormSqr(z)
    ensures z.re <= r
  {
    SquareNonNegative(z.im);
    if z.re > r { SquaresOrdered(r, z.re); }
  }

  /** The phase that turns `z` onto the positive real axis. */
  function Align(z: Complex, r: real): Complex
    requires r >= 0.0
  {
    if r == 0.0 then Complex(1.0, 0.0) else Complex(z.re / r, -(z.im / r))
  }

  lemma Cancel(x: real, y: real, s: real)
    requires s > 0.0 && x * s == y * s
    ensures x == y
  {
    assert (x - y) * s == 0.0;
  }

  lemma AddProducts(x: real, y: real, s: real)
    ensures (x + y) * s == x * s + y * s
  {
  }

  lemma ProductTerm(a: real, r: real, x: real)
    requires a * r == x
    ensures (a * x) * r == x * x
  {
    assert (a * x) * r == (a * r) * x;
  }

  lemma SquareTerm(a: real, r: real, x: real)
    requires a * r == x
    ensures (a * a) * r == a * x
  {
    assert (a * a) * r == a * (a * r);
  }

  /** `(a, b) = (x, y) / r` turns `(x, y)` onto the axis. */
  lemma OntoAxis(a: real, b: real, x: real, y: real, r: real)
    requires r > 0.0 && a * r == x && b * r == y && r * r == x * x + y * y
    ensures a * x + b * y == r
  {
    ProductTerm(a, r, x);
    ProductTerm(b, r, y);
    AddProducts(a * x, b * y, r);
    Cancel(a * x + b * y, r, r);
  }

  /** And lies on the unit circle. */
  lemma OnCircle(a: real, b: real, x: real, y: real, r: real)
    requires r > 0.0 && a * r == x && b * r == y && a * x + b * y == r
    ensures a * a + b * b == 1.0
  {
    SquareTerm(a, r, x);
    SquareTerm(b, r, y);
    AddProducts(a * a, b * b, r);
    Cancel(a * a + b * b, 1.0, r);
  }

  lemma Conjugated(a: real, b: real, z: Complex)
    ensures NormSqr(Complex(a, -b)) == a * a + b * b
    ensures Mul(Complex(a, -b), z).re == a * z.re + b * z.im
  {
  }

  lemma ZeroNorm(z: Complex)
    requires NormSqr(z) == 0.0
    ensures z.re == 0.0
  {
    SquareNonNegative(z.im);
    if z.re > 0.0 { SquaresOrdered(0.0, z.re); } else if z.re < 0.0 { SquaresOrdered(0.0, -z.re); }
  }

  lemma AlignTurns(z: Complex, r: real)
    requires r >= 0.0 && r * r == NormSqr(z)
    ensures NormSqr(Align(z, r)) == 1.0 && Mul(Align(z, r), z).re == r
  {
    if r == 0.0 {
      ZeroNorm(z);
      assert Align(z, r) == Complex(1.0, 0.0) && Mul(Complex(1.0, 0.0), z) == z;
    } else {
      assert Align(z, r) == Complex(z.re / r, -(z.im / r));
      AlignTurnsBy(z.re / r, z.im / r, z, r);
    }
  }

  lemma AlignTurnsBy(a: real, b: real, z: Complex, r: real)
    requires r > 0.0 && a * r == z.re && b * r == z.im && r * r == NormSqr(z)
    ensures NormSqr(Complex(a, -b)) == 1.0 && Mul(Complex(a, -b), z).re == r
  {
    OntoAxis(a, b, z.re, z.im, r);
    OnCircle(a, b, z.re, z.im, r);
    Conjugated(a, b, z);
  }

  lemma PhaseDistance(q: Vector, v: Vector, u: Complex, r: real)
    requires Unit(q) && Unit(v) && |q| == |v| && NormSqr(u) == 1.0 && r >= 0.0 && r * r == NormSqr(Dot(q, v))
    ensures var d := DistanceTo(q, Scale(u, v), |q|);
      d >= 2.0 * (1.0 - r) && (u == Align(Dot(q, v), r) ==> d == 2.0 * (1.0 - r))
  {
    var z := Dot(q, v);
    DistanceToMultiple(q, v, u);
    NormSqrMul(u, z);
    RealPartBound(Mul(u, z), r);
    AlignTurns(z, r);
  }

  /** `d` is the distance from `q` to `v` turned by the best global phase: no phase brings it
      nearer, and one brings it as near. */
  ghost predicate DistanceUpToPhase(q: Vector, v: Vector, d: real)
    requires |q| == |v|
  {
    && d >= 0.0 && (forall u: Complex :: NormSqr(u) == 1.0 ==> d * d <= DistanceTo(q, Scale(u, v), |q|))
    && exists u: Complex :: NormSqr(u) == 1.0 && d * d == DistanceTo(q, Scale(u, v), |q|)
  }

  lemma BestPhaseDistance(q: Vector, v: Vector, r: real, d: real)
    requires Unit(q) && Unit(v) && |q| == |v| && r >= 0.0 && r * r == NormSqr(Dot(q, v))
    requires d >= 0.0 && d * d == 2.0 * (1.0 - r)
    ensures DistanceUpToPhase(q, v, d)
  {
    forall u: Complex | NormSqr(u) == 1.0 ensures d * d <= DistanceTo(q, Scale(u, v), |q|) {
      PhaseDistance(q, v, u, r);
    }
    AlignTurns(Dot(q, v), r);
    PhaseDistance(q, v, Align(Dot(q, v), r), r);
  }

  lemma ChordalRoots(sqrt: real -> real, q: Vector, v: Vector) returns (r: real, d: real)
    requires IsSqrt(sqrt) && Unit(q) && Unit(v)
    ensures r >= 0.0 && r * r == NormSqr(Dot(q, v))
    ensures d == 2.0 - TrueScore(sqrt, q, v, Chordal) && d >= 0.0 && d * d == 2.0 * (1.0 - r)
  {
    ProjectiveScoresMean(sqrt, q, v);
    UnitOverlap(q, v);
    r, d := sqrt(ProjectiveOverlap(q, v)), 2.0 - TrueScore(sqrt, q, v, Chordal);
    RootSquared(sqrt, ProjectiveOverlap(q, v), r);
    RootSquared(sqrt, 2.0 * (1.0 - r), d);
  }

  /** The Chordal score is two minus the distance from `q` to `v` up to a global phase. */
  lemma ChordalIsPhaseAligned(sqrt: real -> real, q: Vector, v: Vector)
    requires IsSqrt(sqrt) && Unit(q) && Unit(v) && |q| == |v|
    ensures DistanceUpToPhase(q, v, 2.0 - TrueScore(sqrt, q, v, Chordal))
  {
    var r, d := ChordalRoots(sqrt, q, v);
    BestPhaseDistance(q, v, r, d);
  }

  // ---- nearest first ---------------------------------------------------------------------------

  /** `v` is nearer to `q` than `w`, in the terms of the metric. */
  ghost predicate Nearer(sqrt: real -> real, m: Metric, q: Vector, v: Vector, w: Vector)
    requires IsSqrt(sqrt) && |q| == |v| == |w|
  {
    match m
    case Euclidean => DistanceTo(q, v, |q|) < DistanceTo(q, w, |q|)
    case Cosine => CosineRatio(sqrt, q, v) > CosineRatio(sqrt, q, w)
    case _ => ProjectiveOverlap(q, v) > ProjectiveOverlap(q, w)
  }

  /** The real part of the inner product over the product of the lengths, the square root of which is
      floored. */
  ghost function CosineRatio(sqrt: real -> real, q: Vector, v: Vector): real
    requires IsSqrt(sqrt)
  {
    var d := Denominator(NormSquared(q), NormSquared(v));
    assert sqrt(d) * sqrt(d) == d;
    Dot(q, v).re / sqrt(d)
  }

  /** With true norms, a nearer vector and only a nearer one scores higher, under every metric. */
  lemma NearerScoresHigher(sqrt: real -> real, m: Metric, q: Vector, v: Vector, w: Vector)
    requires IsSqrt(sqrt) && |q| == |v| == |w|
    ensures TrueScore(sqrt, q, v, m) > TrueScore(sqrt, q, w, m) <==> Nearer(sqrt, m, q, v, w)
  {
    match m
    case Euclidean =>
      EuclideanScoreIsDistance(sqrt, q, v);
      EuclideanScoreIsDistance(sqrt, q, w);
      PolarIdentity(q, v, |q|);
      PolarIdentity(q, w, |q|);
      SqrtOrdered(sqrt, DistanceTo(q, v, |q|), DistanceTo(q, w, |q|));
    case Cosine =>
      CosineClampNeverFires(sqrt, q, v);
      CosineClampNeverFires(sqrt, q, w);
    case _ =>
      ProjectiveScoresMean(sqrt, q, v);
      ProjectiveScoresMean(sqrt, q, w);
      ProjectiveScoresAgree(sqrt, q, NormSquared(q), w, NormSquared(w), v, NormSquared(v));
  }

  /** Slots hold vectors of the query's dimension, and the eligible ones their true norms. */
  ghost predicate Stored(q: Vector, vectors: nat -> Vector, norms: nat -> real, slots: seq<nat>) {
    (forall i: nat :: |vectors(i)| == |q|) && forall i :: i in slots ==> norms(i) == NormSquared(vectors(i))
  }

  /** What exact search returns are nearest slots: distinct eligible ones, `k` of them or all, nearer ones
      first, equally near ones by index, and no eligible slot left out is nearer than one returned. */
  lemma ExactReturnsNearest(sqrt: real -> real, m: Metric, q: Vector, vectors: nat -> Vector, norms: nat -> real,
                            a: Slots, mask: Option<set<nat>>, k: nat)
    requires IsSqrt(sqrt) && Stored(q, vectors, norms, EligibleSlots(a, mask))
    ensures var slots := EligibleSlots(a, mask);
      var hits := Indices(TopK(Score(slots, SlotScore(sqrt, q, vectors, norms, m)), k));
      && Distinct(hits) && |hits| == Min(k, |slots|)
      && (forall i :: i in hits ==> i < a.size && Admits(a.live, mask, i))
      && (forall i, j :: 0 <= i < j < |hits| ==>
            || Nearer(sqrt, m, q, vectors(hits[i]), vectors(hits[j]))
            || (hits[i] < hits[j] && !Nearer(sqrt, m, q, vectors(hits[j]), vectors(hits[i]))))
      && (forall i: nat, j :: i < a.size && Admits(a.live, mask, i) && i !in hits && j in hits ==>
            !Nearer(sqrt, m, q, vectors(i), vectors(j)))
  {
    var slots, score := EligibleSlots(a, mask), SlotScore(sqrt, q, vectors, norms, m);
    var s := Score(slots, score);
    EligibleListed(a, mask);
    BestListed(slots, score, k);
    var hits := Indices(TopK(s, k));
    forall i, j | i in slots && j in slots
      ensures Nearer(sqrt, m, q, vectors(i), vectors(j)) <==> score(i) > score(j)
    {
      NearerScoresHigher(sqrt, m, q, vectors(i), vectors(j));
    }
    assert forall i :: 0 <= i < |hits| ==> hits[i] in hits;
  }

  lemma EligibleListed(a: Slots, mask: Option<set<nat>>)
    ensures Distinct(EligibleSlots(a, mask))
    ensures forall i: nat :: i in EligibleSlots(a, mask) <==> i < a.size && Admits(a.live, mask, i)
  {
    FilterDistinct(a.size, Keep(a, mask));
  }

  /** A higher score, or the same and the smaller index. */
  predicate Before(score: nat -> real, i: nat, j: nat) { score(i) > score(j) || (score(i) == score(j) && i < j) }

  /** The top `k` of distinct scored slots, in terms of scores. */
  lemma BestListed(slots: seq<nat>, score: nat -> real, k: nat)
    requires Distinct(slots)
    ensures var hits := Indices(TopK(Score(slots, score), k));
      && Distinct(hits) && |hits| == Min(k, |slots|) && (forall i :: i in hits ==> i in slots)
      && (forall i, j :: 0 <= i < j < |hits| ==> Before(score, hits[i], hits[j]))
      && (forall i, j :: i in slots && i !in hits && j in hits ==> Before(score, j, i))
  {
    var s := Score(slots, score);
    var r := Rank(s);
    RankSorts(s);
    ScoreOfIndices(r, slots, score);
    IndicesDistinct(slots, score);
    var hits := Indices(TopK(s, k));
    assert |hits| == Min(k, |r|) && forall i :: 0 <= i < |hits| ==> hits[i] == Indices(r)[i];
    forall i | i in slots ensures i in Indices(r) { assert i in Elems(Indices(r)); }
    forall i | i in hits ensures i in slots { assert i in Elems(Indices(r)); }
    forall i, j | 0 <= i < j < |r| ensures Before(score, Indices(r)[i], Indices(r)[j]) {
      assert Ahead(r[i], r[j]) && Score(Indices(r), score)[i] == r[i] && Score(Indices(r), score)[j] == r[j];
    }
    forall i, j | i in slots && i !in hits && j in hits ensures Before(score, j, i) {
      var x :| 0 <= x < |r| && Indices(r)[x] == i;
      var y :| 0 <= y < |hits| && hits[y] == j;
    }
  }

  lemma IndicesDistinct(slots: seq<nat>, score: nat -> real)
    requires Distinct(slots)
    ensures Distinct(Indices(Rank(Score(slots, score))))
  {
    var s := Score(slots, score);
    var r := Rank(s);
    RankSorts(s);
    ScoreOfIndices(r, slots, score);
    DistinctPermutation(s, r);
    forall i, j | 0 <= i < j < |r| ensures Indices(r)[i] != Indices(r)[j] {
      assert Score(Indices(r), score)[i] == r[i] && Score(Indices(r), score)[j] == r[j];
    }
  }
}
