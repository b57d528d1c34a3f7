/** What the attention of the superposition search computes, although no result depends on it: the weights of
    a beam are a probability distribution that follows the scores, the beam state is the weighted sum of the
    beam's vectors, and the coherence bonus is bounded. */
module BeamAttention {
  import opened Basics
  import opened ComplexVectors
  import opened Overlap
  import opened Ranking
  import opened Superposition
  import LayerCore
  import Heaps

  /** What is used of the exponential. */
  ghost predicate IsExp(exp: real -> real) {
    exp(0.0) == 1.0 && (forall x :: exp(x) > 0.0) && forall x, y :: x < y ==> exp(x) < exp(y)
  }

  // ---- the weights -----------------------------------------------------------------------------

  lemma {:induction false} LargestFacts(s: seq<real>)
    requires s != []
    ensures Largest(s) in s && forall i :: 0 <= i < |s| ==> s[i] <= Largest(s)
    decreases |s|
  {
    if |s| > 1 {
      var n := |s| - 1;
      LargestFacts(s[..n]);
      assert forall i :: 0 <= i < n ==> s[i] == s[..n][i];
    }
  }

  lemma {:induction false} SumBounds(s: seq<real>, i: nat)
    requires i < |s| && forall j :: 0 <= j < |s| ==> s[j] > 0.0
    ensures SumOf(s) >= s[i]
    decreases |s|
  {
    var n := |s| - 1;
    SumPositive(s[..n]);
    if i < n { SumBounds(s[..n], i); }
  }

  lemma {:induction false} SumPositive(s: seq<real>)
    requires forall j :: 0 <= j < |s| ==> s[j] > 0.0
    ensures SumOf(s) >= 0.0
    decreases |s|
  {
    if s != [] { SumPositive(s[..|s| - 1]); }
  }

  lemma {:induction false} SumTimes(s: seq<real>, w: seq<real>, f: real)
    requires |w| == |s| && forall i :: 0 <= i < |s| ==> w[i] == s[i] * f
    ensures SumOf(w) == SumOf(s) * f
    decreases |s|
  {
    if s != [] {
      var n := |s| - 1;
      SumTimes(s[..n], w[..n], f);
      Distributed(SumOf(s[..n]), s[n], f);
    }
  }

  lemma Distributed(x: real, y: real, f: real)
    ensures (x + y) * f == x * f + y * f
  {
  }

  lemma Shrinks(a: real, b: real, t: real)
    requires t > 0.0
    ensures a < b <==> a / t < b / t
  {
    var p, q := a / t, b / t;
    assert p * t == a && q * t == b;
    if p < q { assert (q - p) * t > 0.0; }
    if p > q { assert (p - q) * t > 0.0; }
  }

  lemma Grows(a: real, b: real, f: real)
    requires f > 0.0
    ensures a < b <==> a * f < b * f
  {
    if a < b { assert (b - a) * f > 0.0; }
    if a > b { assert (a - b) * f > 0.0; }
  }

  lemma ExpOrder(att: Attention, a: real, b: real, top: real)
    requires IsExp(att.exp)
    ensures var t := Temperature(att);
      att.exp((a - top) / t) > 0.0 && (att.exp((a - top) / t) < att.exp((b - top) / t) <==> a < b)
  {
    var t := Temperature(att);
    Shrinks(a - top, b - top, t);
    Shrinks(b - top, a - top, t);
    var x, y := (a - top) / t, (b - top) / t;
    assert x < y ==> att.exp(x) < att.exp(y);
    assert y < x ==> att.exp(y) < att.exp(x);
  }

  lemma ExpsOrdered(att: Attention, totals: seq<real>)
    requires totals != [] && IsExp(att.exp)
    ensures var e := Exps(att, totals);
      && (forall i :: 0 <= i < |e| ==> e[i] > 0.0)
      && (forall i, j :: 0 <= i < |e| && 0 <= j < |e| ==> (e[i] < e[j] <==> totals[i] < totals[j]))
  {
    var e := Exps(att, totals);
    forall i, j | 0 <= i < |e| && 0 <= j < |e| ensures e[i] > 0.0 && (e[i] < e[j] <==> totals[i] < totals[j]) {
      ExpOrder(att, totals[i], totals[j], Largest(totals));
    }
    forall i | 0 <= i < |e| ensures e[i] > 0.0 { ExpOrder(att, totals[i], totals[i], Largest(totals)); }
  }

  lemma ZeroOver(x: real, t: real)
    requires t > 0.0 && x == 0.0
    ensures x / t == 0.0
  {
  }

  lemma ExpsTop(att: Attention, totals: seq<real>) returns (m: nat)
    requires totals != [] && att.exp(0.0) == 1.0
    ensures m < |totals| && Exps(att, totals)[m] == 1.0
  {
    LargestFacts(totals);
    m :| m < |totals| && totals[m] == Largest(totals);
    ZeroOver(totals[m] - Largest(totals), Temperature(att));
  }

  lemma ExpsFacts(att: Attention, totals: seq<real>)
    requires totals != [] && IsExp(att.exp)
    ensures var e := Exps(att, totals);
      && (forall i :: 0 <= i < |e| ==> e[i] > 0.0) && SumOf(e) >= 1.0
      && (forall i, j :: 0 <= i < |e| && 0 <= j < |e| ==> (e[i] < e[j] <==> totals[i] < totals[j]))
  {
    ExpsOrdered(att, totals);
    var m := ExpsTop(att, totals);
    SumBounds(Exps(att, totals), m);
  }

  lemma InverseFacts(sum: real)
    requires sum >= 1.0
    ensures InverseSum(sum) > 0.0 && sum * InverseSum(sum) == 1.0
  {
    var f := 1.0 / sum;
    assert f * sum == 1.0;
  }

  lemma ScaledOrder(e: seq<real>, w: seq<real>, f: real)
    requires f > 0.0 && |w| == |e| && forall i :: 0 <= i < |e| ==> w[i] == e[i] * f && e[i] > 0.0
    ensures forall i :: 0 <= i < |w| ==> w[i] > 0.0
    ensures forall i, j :: 0 <= i < |w| && 0 <= j < |w| ==> (w[i] < w[j] <==> e[i] < e[j])
  {
    forall i | 0 <= i < |w| ensures w[i] > 0.0 { Grows(0.0, e[i], f); }
    forall i, j | 0 <= i < |w| && 0 <= j < |w| ensures w[i] < w[j] <==> e[i] < e[j] { Grows(e[i], e[j], f); }
  }

  /** Positive, summing to one, and ordered as the scores are. */
  ghost predicate Softmax(w: seq<real>, totals: seq<real>) {
    && |w| == |totals| && (forall i :: 0 <= i < |w| ==> w[i] > 0.0) && SumOf(w) == 1.0
    && (forall i, j :: 0 <= i < |w| && 0 <= j < |w| ==> (w[i] < w[j] <==> totals[i] < totals[j]))
  }

  lemma Normalised(att: Attention, totals: seq<real>)
    requires totals != [] && var e := Exps(att, totals);
      && (forall i :: 0 <= i < |e| ==> e[i] > 0.0) && SumOf(e) >= 1.0
      && (forall i, j :: 0 <= i < |e| && 0 <= j < |e| ==> (e[i] < e[j] <==> totals[i] < totals[j]))
    ensures Softmax(Weights(att, totals), totals)
  {
    var e, w := Exps(att, totals), Weights(att, totals);
    InverseFacts(SumOf(e));
    NormalisedBy(e, w, InverseSum(SumOf(e)), totals);
  }

  lemma NormalisedBy(e: seq<real>, w: seq<real>, f: real, totals: seq<real>)
    requires f > 0.0 && SumOf(e) * f == 1.0 && |e| == |w| == |totals|
    requires forall i :: 0 <= i < |e| ==> w[i] == e[i] * f && e[i] > 0.0
    requires forall i, j :: 0 <= i < |e| && 0 <= j < |e| ==> (e[i] < e[j] <==> totals[i] < totals[j])
    ensures Softmax(w, totals)
  {
    ScaledOrder(e, w, f);
    SumTimes(e, w, f);
  }

  /** The weights of a beam are a softmax of the scores. */
  lemma WeightsAreSoftmax(att: Attention, totals: seq<real>)
    requires totals != [] && IsExp(att.exp)
    ensures Softmax(Weights(att, totals), totals)
  {
    ExpsFacts(att, totals);
    Normalised(att, totals);
  }

  /** The next beam: the first neighbours met, as many as it is wide, with their weights. */
  lemma {:induction false} NextBeam(e: LayerCore.Engine, q: LayerCore.Query, width: nat, ns: seq<nat>,
                                    weights: seq<real>, u: Update)
    requires |ns| == |weights| && |u.beam| <= width
    ensures var r, n := Offer(e, q, width, ns, weights, u).beam, Min(width - |u.beam|, |ns|);
      && |r| == |u.beam| + n && r[..|u.beam|] == u.beam
      && forall i :: 0 <= i < n ==> r[|u.beam| + i] == (ns[i], weights[i])
    decreases |ns|
  {
    if ns != [] {
      var heaps := LayerCore.Admit(e, q, Scored(ns[0], q.sim(ns[0])), u.heaps);
      var beam := if |u.beam| < width then u.beam + [(ns[0], weights[0])] else u.beam;
      NextBeam(e, q, width, ns[1..], weights[1..], Update(heaps, beam));
      var r := Offer(e, q, width, ns, weights, u).beam;
      if |u.beam| < width {
        assert r[..|u.beam|] == r[..|beam|][..|u.beam|];
        assert r[|u.beam|] == beam[|u.beam|];
        forall i | 0 <= i < Min(width - |u.beam|, |ns|) ensures r[|u.beam| + i] == (ns[i], weights[i]) {
          if i > 0 { assert r[|beam| + (i - 1)] == (ns[1..][i - 1], weights[1..][i - 1]); }
        }
      }
    }
  }

  /** A round with new neighbours replaces the beam by them and their softmax weights. */
  lemma BeamReplaced(e: LayerCore.Engine, q: LayerCore.Query, att: Attention, geo: Geometry, s: State)
    requires LayerCore.LawfulEngine(e) && LayerCore.WellFormed(q) && LayerCore.Sound(q, s.core) && IsSqrt(att.sqrt)
    ensures var popped := LayerCore.PopBatch(e, BeamWidth(att), s.core.heaps.queue);
      && (forall c :: c in popped.batch ==> c.index < |q.layer.adj|)
      && |popped.batch| == Min(Max(att.width, 1), |s.core.heaps.queue.items|)
      && var ns, beam := LayerCore.FreshBatch(q, popped.batch, s.core.visited), Step(e, q, att, geo, s).beam;
         if ns == [] then beam == s.beam
         else |beam| == Min(Max(att.width, 1), |ns|) && forall i :: 0 <= i < |beam| ==> beam[i].0 == ns[i]
  {
    LayerCore.PopBatchFacts(e, BeamWidth(att), s.core.heaps.queue);
    BatchSize(e, BeamWidth(att), s.core.heaps.queue);
    var popped := LayerCore.PopBatch(e, BeamWidth(att), s.core.heaps.queue);
    var ns := LayerCore.FreshBatch(q, popped.batch, s.core.visited);
    if ns != [] {
      var psi := if UsesBeam(att, geo) then BeamState(geo, s.beam, Zeros(geo.dimension)) else Zeros(geo.dimension);
      NewBeam(e, q, BeamWidth(att), ns, Weights(att, Totals(att, geo, q, psi, ns)),
        LayerCore.Pair(popped.queue, s.core.heaps.results));
    }
  }

  lemma NewBeam(e: LayerCore.Engine, q: LayerCore.Query, width: nat, ns: seq<nat>, weights: seq<real>,
                heaps: LayerCore.Pair)
    requires |ns| == |weights|
    ensures var beam := Offer(e, q, width, ns, weights, Update(heaps, [])).beam;
      |beam| == Min(width, |ns|) && forall i :: 0 <= i < |beam| ==> beam[i] == (ns[i], weights[i])
  {
    NextBeam(e, q, width, ns, weights, Update(heaps, []));
  }

  lemma {:induction false} BatchSize(e: LayerCore.Engine, width: nat, queue: Heaps.Heap)
    requires LayerCore.LawfulEngine(e)
    ensures |LayerCore.PopBatch(e, width, queue).batch| == Min(width, |queue.items|)
    decreases width
  {
    if width > 0 && |queue.items| > 0 {
      Heaps.PopItems(e.queue, true, queue);
      BatchSize(e, width - 1, Heaps.Pop(e.queue, queue));
    }
  }

  // ---- the beam state --------------------------------------------------------------------------

  /** One component of a beam entry's share: its vector's, or nothing where it is shorter. */
  function Portion(geo: Geometry, j: nat): ((nat, real)) -> Complex {
    (entry: (nat, real)) =>
      var v := geo.vectors(entry.0);
      if j < |v| then Complex(v[j].re * entry.1, v[j].im * entry.1) else Zero
  }

  /** The sum over the beam. */
  function Total(share: ((nat, real)) -> Complex, beam: Beam): Complex {
    if beam == [] then Zero else Add(Total(share, beam[..|beam| - 1]), share(beam[|beam| - 1]))
  }

  lemma AddAssociates(x: Complex, y: Complex, z: Complex)
    ensures Add(Add(x, y), z) == Add(x, Add(y, z)) && Add(Zero, x) == x == Add(x, Zero)
  {
  }

  lemma {:induction false} TotalCons(share: ((nat, real)) -> Complex, beam: Beam)
    requires beam != []
    ensures Total(share, beam) == Add(share(beam[0]), Total(share, beam[1..]))
    decreases |beam|
  {
    var n := |beam| - 1;
    if n == 0 {
      assert beam[..0] == [] && beam[1..] == [];
      AddAssociates(share(beam[0]), Zero, Zero);
    } else {
      TotalCons(share, beam[..n]);
      assert beam[..n][1..] == beam[1..][..n - 1] && beam[1..][n - 1] == beam[n];
      AddAssociates(share(beam[0]), Total(share, beam[1..][..n - 1]), share(beam[n]));
    }
  }

  lemma AddScaledAt(geo: Geometry, psi: Vector, entry: (nat, real), j: nat)
    requires j < |psi|
    ensures AddScaled(psi, geo.vectors(entry.0), entry.1)[j] == Add(psi[j], Portion(geo, j)(entry))
  {
  }

  /** Every component of the beam state is the sum of the weighted components of the beam's vectors. */
  lemma {:induction false} BeamStateIsSum(geo: Geometry, beam: Beam, psi: Vector, j: nat)
    requires j < |psi|
    ensures |BeamState(geo, beam, psi)| == |psi|
    ensures BeamState(geo, beam, psi)[j] == Add(psi[j], Total(Portion(geo, j), beam))
    decreases |beam|
  {
    var share := Portion(geo, j);
    if beam == [] {
      AddAssociates(psi[j], Zero, Zero);
    } else {
      var next := AddScaled(psi, geo.vectors(beam[0].0), beam[0].1);
      BeamStateIsSum(geo, beam[1..], next, j);
      TotalCons(share, beam);
      AddScaledAt(geo, psi, beam[0], j);
      AddAssociates(psi[j], share(beam[0]), Total(share, beam[1..]));
    }
  }

  // ---- the coherence bonus ---------------------------------------------------------------------

  lemma FractionOf(p: real, x: real)
    requires 0.0 <= p <= 1.0 && x >= 0.0
    ensures 0.0 <= p * x <= x
  {
    ProductMonotone(p, 1.0, x);
    ProductMonotone(0.0, p, x);
  }

  lemma BonusBounded(p: real, phase: real)
    requires 0.0 <= p <= 1.0 && -0.5 <= phase <= 1.0
    ensures -0.5 <= Share(p, phase) <= 1.0
  {
    if phase >= 0.0 {
      FractionOf(p, phase);
    } else {
      FractionOf(p, -phase);
      assert p * (-phase) == -(p * phase);
    }
  }

  lemma InnerBounded(a: Complex, b: Complex)
    ensures Inner(a, b) * Inner(a, b) <= PhaseSquare(a, b)
  {
    PlaneCauchySchwarz(a, b);
  }

  lemma RatioBounded(x: real, square: real, s: real)
    requires s >= 0.0 && s * s == square > 0.0 && x * x <= square
    ensures s > 0.0 && x / s <= 1.0
  {
    assert s != 0.0;
    AbsoluteBound(x, s);
  }

  lemma PhaseBounded(sqrt: real -> real, a: Complex, b: Complex)
    requires IsSqrt(sqrt)
    ensures Phase(sqrt, a, b) <= 1.0
  {
    InnerBounded(a, b);
    RatioBounded(Inner(a, b), PhaseSquare(a, b), sqrt(PhaseSquare(a, b)));
  }

  lemma CoherenceBounded(sqrt: real -> real, a: Complex, b: Complex)
    requires IsSqrt(sqrt)
    ensures -0.5 <= Coherence(sqrt, a, b) <= 1.0
  {
    PhaseBounded(sqrt, a, b);
    BonusBounded(Clamp(NormSqr(b), 0.0, 1.0), MaxReal(Phase(sqrt, a, b), -0.5));
  }

  lemma NothingInner(a: Complex, b: Complex)
    requires NormSqr(b) <= 0.0
    ensures Inner(a, b) == 0.0
  {
    SquareNonNegative(b.re);
    SquareNonNegative(b.im);
    if b.re != 0.0 { SquaresOrdered(0.0, if b.re > 0.0 then b.re else -b.re); }
    if b.im != 0.0 { SquaresOrdered(0.0, if b.im > 0.0 then b.im else -b.im); }
  }

  lemma QuotientSign(x: real, s: real)
    requires s > 0.0
    ensures (x > 0.0 <==> x / s > 0.0) && (x < 0.0 <==> x / s < 0.0)
  {
    Shrinks(0.0, x, s);
    Shrinks(x, 0.0, s);
    ZeroOver(0.0, s);
  }

  lemma ShareSign(p: real, x: real)
    requires p > 0.0
    ensures (x > 0.0 <==> Share(p, x) > 0.0) && (x < 0.0 <==> Share(p, x) < 0.0)
  {
    Grows(0.0, x, p);
    Grows(x, 0.0, p);
  }

  /** The bonus has the sign of the phase agreement: coherent neighbours gain, incoherent ones lose. */
  lemma CoherenceSign(sqrt: real -> real, a: Complex, b: Complex)
    requires IsSqrt(sqrt)
    ensures (Coherence(sqrt, a, b) > 0.0 <==> Inner(a, b) > 0.0) && (Coherence(sqrt, a, b) < 0.0 <==> Inner(a, b) < 0.0)
  {
    var root, phase := sqrt(PhaseSquare(a, b)), Phase(sqrt, a, b);
    InnerBounded(a, b);
    RatioBounded(Inner(a, b), PhaseSquare(a, b), root);
    QuotientSign(Inner(a, b), root);
    if NormSqr(b) > 0.0 {
      ShareSign(Clamp(NormSqr(b), 0.0, 1.0), MaxReal(phase, -0.5));
    } else {
      NothingInner(a, b);
      NormSqrNonNegative(b);
    }
  }

  lemma MixOrder(l: real, f: real, x: real, y: real)
    requires 0.0 <= l && x <= y
    ensures Mix(l, f, x) <= Mix(l, f, y)
  {
    var kept := (1.0 - l) * f;
    assert l * x <= l * y by { ProductMonotone(x, y, l); }
    assert kept + l * x <= kept + l * y;
  }

  /** Without a beam the score is the fidelity; with one it is a mix of the fidelity and a bonus between -1/2
      and 1. */
  lemma TotalScoreBounded(att: Attention, geo: Geometry, psi: Vector, n: nat, fidelity: real)
    requires IsSqrt(att.sqrt)
    ensures var t, l := TotalScore(att, geo, psi, n, fidelity), Lambda(att);
      && (0.0 <= att.weight <= 1.0 ==> l == att.weight) && 0.0 <= l <= 1.0
      && (!geo.base || l == 0.0 ==> t == fidelity)
      && (geo.base && l > 0.0 ==> Mix(l, fidelity, -0.5) <= t <= Mix(l, fidelity, 1.0))
  {
    if UsesBeam(att, geo) {
      var a, b := Dot(geo.query, geo.vectors(n)), Dot(psi, geo.vectors(n));
      CoherenceBounded(att.sqrt, a, b);
      MixOrder(Lambda(att), fidelity, -0.5, Coherence(att.sqrt, a, b));
      MixOrder(Lambda(att), fidelity, Coherence(att.sqrt, a, b), 1.0);
    }
  }
}
