/** The SIMD and unrolled inner-product kernels, lane by lane, proved equal to the plain sum of
    `conj(a_j) * b_j` over the common length. Registers are sequences of lanes. The kernels only
    regroup a sum, so they are proved for an arbitrary product `mul` with exact addition; `Product`
    instantiates it with multiplication of reals. */
module Kernels {
  import opened ComplexVectors

  type Lanes = seq<real>
  type Mul = (real, real) -> real

  function Product(x: real, y: real): real { x * y }

  /** The vector read through a `*const f32` pointer: real and imaginary parts interleaved. */
  function Flat(a: Vector): (f: Lanes)
    ensures |f| == 2 * |a|
    ensures forall c :: 0 <= c < |a| ==> f[2 * c] == a[c].re && f[2 * c + 1] == a[c].im
  {
    if a == [] then [] else
      var c := a[|a| - 1];
      Flat(a[..|a| - 1]) + [c.re, c.im]
  }

  // ---- the sums the kernels are specified by ---------------------------------------------------

  /** `n` products of equal positions: the real part, two floats per component. */
  function FloatDot(mul: Mul, x: Lanes, y: Lanes, n: nat): real
    requires n <= |x| && n <= |y|
  {
    if n == 0 then 0.0 else FloatDot(mul, x, y, n - 1) + mul(x[n - 1], y[n - 1])
  }

  /** `n` components' worth of cross products: the imaginary part. */
  function FloatCross(mul: Mul, x: Lanes, y: Lanes, n: nat): real
    requires 2 * n <= |x| && 2 * n <= |y|
  {
    if n == 0 then 0.0
    else FloatCross(mul, x, y, n - 1) + mul(x[2 * n - 2], y[2 * n - 1]) - mul(x[2 * n - 1], y[2 * n - 2])
  }

  /** Real part of `n` components, for an arbitrary product. */
  function ReTo(mul: Mul, a: Vector, b: Vector, n: nat): real
    requires n <= |a| && n <= |b|
  {
    if n == 0 then 0.0
    else ReTo(mul, a, b, n - 1) + (mul(a[n - 1].re, b[n - 1].re) + mul(a[n - 1].im, b[n - 1].im))
  }

  lemma {:induction false} FlatRe(mul: Mul, a: Vector, b: Vector, n: nat)
    requires n <= |a| && n <= |b|
    ensures FloatDot(mul, Flat(a), Flat(b), 2 * n) == ReTo(mul, a, b, n)
  {
    if n > 0 {
      var c, x, y := n - 1, Flat(a), Flat(b);
      FlatRe(mul, a, b, c);
      assert x[2 * c] == a[c].re && x[2 * c + 1] == a[c].im;
      assert y[2 * c] == b[c].re && y[2 * c + 1] == b[c].im;
      assert FloatDot(mul, x, y, 2 * c + 1) == FloatDot(mul, x, y, 2 * c) + mul(x[2 * c], y[2 * c]);
    }
  }

  lemma {:induction false} ReIsReal(a: Vector, b: Vector, n: nat)
    requires n <= |a| && n <= |b|
    ensures ReTo(Product, a, b, n) == DotTo(a, b, n).re
  {
    if n > 0 { ReIsReal(a, b, n - 1); }
  }

  lemma FlatDot(a: Vector, b: Vector, n: nat)
    requires n <= |a| && n <= |b|
    ensures FloatDot(Product, Flat(a), Flat(b), 2 * n) == DotTo(a, b, n).re
  {
    FlatRe(Product, a, b, n);
    ReIsReal(a, b, n);
  }

  /** Imaginary part of `n` components, for an arbitrary product. */
  function ImTo(mul: Mul, a: Vector, b: Vector, n: nat): real
    requires n <= |a| && n <= |b|
  {
    if n == 0 then 0.0
    else ImTo(mul, a, b, n - 1) + (mul(a[n - 1].re, b[n - 1].im) - mul(a[n - 1].im, b[n - 1].re))
  }

  lemma {:induction false} FlatIm(mul: Mul, a: Vector, b: Vector, n: nat)
    requires n <= |a| && n <= |b|
    ensures FloatCross(mul, Flat(a), Flat(b), n) == ImTo(mul, a, b, n)
  {
    if n > 0 {
      var c, x, y := n - 1, Flat(a), Flat(b);
      FlatIm(mul, a, b, c);
      assert x[2 * c] == a[c].re && x[2 * c + 1] == a[c].im;
      assert y[2 * c] == b[c].re && y[2 * c + 1] == b[c].im;
    }
  }

  lemma {:induction false} ImIsImaginary(a: Vector, b: Vector, n: nat)
    requires n <= |a| && n <= |b|
    ensures ImTo(Product, a, b, n) == DotTo(a, b, n).im
  {
    if n > 0 { ImIsImaginary(a, b, n - 1); }
  }

  lemma FlatCross(a: Vector, b: Vector, n: nat)
    requires n <= |a| && n <= |b|
    ensures FloatCross(Product, Flat(a), Flat(b), n) == DotTo(a, b, n).im
  {
    FlatIm(Product, a, b, n);
    ImIsImaginary(a, b, n);
  }

  // ---- registers -------------------------------------------------------------------------------

  function Splat(w: nat): (r: Lanes)
    ensures |r| == w && forall j :: 0 <= j < w ==> r[j] == 0.0
  {
    seq(w, j => 0.0)
  }

  function FMAdd(mul: Mul, x: Lanes, y: Lanes, acc: Lanes): (r: Lanes)
    requires |x| == |y| == |acc|
    ensures |r| == |acc| && forall j :: 0 <= j < |r| ==> r[j] == acc[j] + mul(x[j], y[j])
  {
    seq(|acc|, j requires 0 <= j < |acc| => acc[j] + mul(x[j], y[j]))
  }

  function FMSub(mul: Mul, x: Lanes, y: Lanes, acc: Lanes): (r: Lanes)
    requires |x| == |y| == |acc|
    ensures |r| == |acc| && forall j :: 0 <= j < |r| ==> r[j] == acc[j] - mul(x[j], y[j])
  {
    seq(|acc|, j requires 0 <= j < |acc| => acc[j] - mul(x[j], y[j]))
  }

  function AddLanes(x: Lanes, y: Lanes): (r: Lanes)
    requires |x| == |y|
    ensures |r| == |x| && forall j :: 0 <= j < |r| ==> r[j] == x[j] + y[j]
  {
    seq(|x|, j requires 0 <= j < |x| => x[j] + y[j])
  }

  /** `_mm256_permute_ps(v, 0b10_11_00_01)`: neighbouring lanes swapped. */
  function SwapPairs(v: Lanes): Lanes
    requires |v| == 8
  {
    [v[1], v[0], v[3], v[2], v[5], v[4], v[7], v[6]]
  }

  /** The first `n` lanes added up. */
  function SumTo(v: Lanes, n: nat): real
    requires n <= |v|
  {
    if n == 0 then 0.0 else SumTo(v, n - 1) + v[n - 1]
  }

  function Sum(v: Lanes): real { SumTo(v, |v|) }

  /** The first `n` lane pairs, the odd lane of each negated. */
  function AltTo(v: Lanes, n: nat): real
    requires 2 * n <= |v|
  {
    if n == 0 then 0.0 else AltTo(v, n - 1) + (v[2 * n - 2] - v[2 * n - 1])
  }

  lemma AltOfEight(v: Lanes)
    requires 8 == |v|
    ensures AltTo(v, 4) == (v[0] - v[1]) + (v[2] - v[3]) + (v[4] - v[5]) + (v[6] - v[7])
  {
    assert AltTo(v, 1) == v[0] - v[1];
    assert AltTo(v, 2) == AltTo(v, 1) + (v[2] - v[3]);
    assert AltTo(v, 3) == AltTo(v, 2) + (v[4] - v[5]);
  }

  lemma {:induction false} AltAdd(x: Lanes, y: Lanes, n: nat)
    requires 2 * n <= |x| == |y|
    ensures AltTo(AddLanes(x, y), n) == AltTo(x, n) + AltTo(y, n)
  {
    if n > 0 { AltAdd(x, y, n - 1); }
  }

  lemma {:induction false} AltSplat(w: nat, n: nat)
    requires 2 * n <= w
    ensures AltTo(Splat(w), n) == 0.0
  {
    if n > 0 { AltSplat(w, n - 1); }
  }

  lemma {:induction false} SumSplat(w: nat, n: nat)
    requires n <= w
    ensures SumTo(Splat(w), n) == 0.0
  {
    if n > 0 { SumSplat(w, n - 1); }
  }

  lemma {:induction false} SumAdd(x: Lanes, y: Lanes, n: nat)
    requires n <= |x| == |y|
    ensures SumTo(AddLanes(x, y), n) == SumTo(x, n) + SumTo(y, n)
  {
    if n > 0 { SumAdd(x, y, n - 1); }
  }

  lemma SumOfEight(v: Lanes)
    requires 8 == |v|
    ensures Sum(v) == (v[0] + v[1]) + (v[2] + v[3]) + (v[4] + v[5]) + (v[6] + v[7])
  {
    assert SumTo(v, 1) == v[0];
    assert SumTo(v, 2) == v[0] + v[1];
    assert SumTo(v, 3) == SumTo(v, 2) + v[2];
    assert SumTo(v, 4) == SumTo(v, 3) + v[3];
    assert SumTo(v, 5) == SumTo(v, 4) + v[4];
    assert SumTo(v, 6) == SumTo(v, 5) + v[5];
    assert SumTo(v, 7) == SumTo(v, 6) + v[6];
  }

  /** In-register reduction: add the 128-bit halves, then `movehl`, then lane 1 onto lane 0. */
  function HorizontalAdd(acc: Lanes): real
    requires |acc| == 8
  {
    var acc128 := AddLanes(acc[..4], acc[4..]);
    var sums := AddLanes(acc128, [acc128[2], acc128[3], acc128[2], acc128[3]]);
    sums[0] + sums[1]
  }

  lemma HorizontalAddIsSum(acc: Lanes)
    requires |acc| == 8
    ensures HorizontalAdd(acc) == Sum(acc)
  {
    SumOfEight(acc);
  }

  // ---- one fused multiply-add advances the sum by one register ---------------------------------

  lemma {:induction false} LanesAdvance(mul: Mul, x: Lanes, y: Lanes, offset: nat, acc: Lanes, r: Lanes, n: nat)
    requires n <= |r| == |acc| && offset + |r| <= |x| && offset + |r| <= |y|
    requires forall j :: 0 <= j < |r| ==> r[j] == acc[j] + mul(x[offset + j], y[offset + j])
    ensures SumTo(r, n) == SumTo(acc, n) + FloatDot(mul, x, y, offset + n) - FloatDot(mul, x, y, offset)
  {
    if n > 0 { LanesAdvance(mul, x, y, offset, acc, r, n - 1); }
  }

  /** Load both operands at `offset` and fuse them onto an accumulator. */
  method FmaAt(mul: Mul, x: Lanes, y: Lanes, offset: nat, acc: Lanes) returns (r: Lanes)
    requires offset + |acc| <= |x| && offset + |acc| <= |y|
    ensures |r| == |acc|
    ensures Sum(r) == Sum(acc) + FloatDot(mul, x, y, offset + |r|) - FloatDot(mul, x, y, offset)
  {
    var vx, vy := x[offset..offset + |acc|], y[offset..offset + |acc|];
    r := FMAdd(mul, vx, vy, acc);
    LanesAdvance(mul, x, y, offset, acc, r, |r|);
  }

  /** The eight lanes of `a` against the pair-swapped lanes of `b`, starting at component `c`. */
  method FmaSwappedAt(mul: Mul, x: Lanes, y: Lanes, c: nat, acc: Lanes) returns (r: Lanes)
    requires |acc| == 8 && 2 * c + 8 <= |x| && 2 * c + 8 <= |y|
    ensures |r| == 8
    ensures AltTo(r, 4) == AltTo(acc, 4) + FloatCross(mul, x, y, c + 4) - FloatCross(mul, x, y, c)
  {
    var o := 2 * c;
    var vx, vy := x[o..o + 8], SwapPairs(y[o..o + 8]);
    r := FMAdd(mul, vx, vy, acc);
    CrossUnrolled(mul, x, y, c);
    AltOfEight(acc);
    AltOfEight(r);
    assert r[0] == acc[0] + mul(x[o], y[o + 1]) && r[1] == acc[1] + mul(x[o + 1], y[o]);
    assert r[2] == acc[2] + mul(x[o + 2], y[o + 3]) && r[3] == acc[3] + mul(x[o + 3], y[o + 2]);
    assert r[4] == acc[4] + mul(x[o + 4], y[o + 5]) && r[5] == acc[5] + mul(x[o + 5], y[o + 4]);
    assert r[6] == acc[6] + mul(x[o + 6], y[o + 7]) && r[7] == acc[7] + mul(x[o + 7], y[o + 6]);
  }

  lemma CrossUnrolled(mul: Mul, x: Lanes, y: Lanes, c: nat)
    requires 2 * c + 8 <= |x| && 2 * c + 8 <= |y|
    ensures FloatCross(mul, x, y, c + 4) == FloatCross(mul, x, y, c)
      + (mul(x[2 * c], y[2 * c + 1]) - mul(x[2 * c + 1], y[2 * c]))
      + (mul(x[2 * c + 2], y[2 * c + 3]) - mul(x[2 * c + 3], y[2 * c + 2]))
      + (mul(x[2 * c + 4], y[2 * c + 5]) - mul(x[2 * c + 5], y[2 * c + 4]))
      + (mul(x[2 * c + 6], y[2 * c + 7]) - mul(x[2 * c + 7], y[2 * c + 6]))
  {
    assert FloatCross(mul, x, y, c + 1) ==
        FloatCross(mul, x, y, c) + mul(x[2 * c], y[2 * c + 1]) - mul(x[2 * c + 1], y[2 * c]);
    assert FloatCross(mul, x, y, c + 2) ==
        FloatCross(mul, x, y, c + 1) + mul(x[2 * c + 2], y[2 * c + 3]) - mul(x[2 * c + 3], y[2 * c + 2]);
    assert FloatCross(mul, x, y, c + 3) ==
        FloatCross(mul, x, y, c + 2) + mul(x[2 * c + 4], y[2 * c + 5]) - mul(x[2 * c + 5], y[2 * c + 4]);
  }

  /** `(acc0 + acc1) + (acc2 + acc3)`, lane by lane. */
  method CombineFour(acc0: Lanes, acc1: Lanes, acc2: Lanes, acc3: Lanes) returns (acc: Lanes)
    requires |acc0| == |acc1| == |acc2| == |acc3|
    ensures |acc| == |acc0|
    ensures Sum(acc) == Sum(acc0) + Sum(acc1) + Sum(acc2) + Sum(acc3)
  {
    var accA, accB := AddLanes(acc0, acc1), AddLanes(acc2, acc3);
    acc := AddLanes(accA, accB);
    SumAdd(acc0, acc1, |acc|);
    SumAdd(acc2, acc3, |acc|);
    SumAdd(accA, accB, |acc|);
  }

  // ---- the real kernels ------------------------------------------------------------------------

  /** The `while offset < float_len` tail shared by both real kernels. */
  method FlatTail(mul: Mul, x: Lanes, y: Lanes, from: nat, floatLen: nat, sum: real) returns (total: real)
    requires from <= floatLen <= |x| && floatLen <= |y|
    requires sum == FloatDot(mul, x, y, from)
    ensures total == FloatDot(mul, x, y, floatLen)
  {
    total := sum;
    var offset := from;
    while offset < floatLen
      invariant from <= offset <= floatLen
      invariant total == FloatDot(mul, x, y, offset)
    {
      total := total + mul(x[offset], y[offset]);
      offset := offset + 1;
    }
  }

  /** The unrolled main loop of `dot_product_real_complex_avx2`: 32 floats a round into four 8-lane accumulators. */
  method QuadAvx2(mul: Mul, x: Lanes, y: Lanes, floatLen: nat)
      returns (acc0: Lanes, acc1: Lanes, acc2: Lanes, acc3: Lanes, offset: nat)
    requires floatLen <= |x| && floatLen <= |y|
    ensures |acc0| == 8 && |acc1| == 8 && |acc2| == 8 && |acc3| == 8 && offset <= floatLen
    ensures Sum(acc0) + Sum(acc1) + Sum(acc2) + Sum(acc3) == FloatDot(mul, x, y, offset)
  {
    acc0, acc1, acc2, acc3 := Splat(8), Splat(8), Splat(8), Splat(8);
    SumSplat(8, 8);
    offset := 0;
    for i := 0 to floatLen / 32
      invariant offset == 32 * i
      invariant |acc0| == 8 && |acc1| == 8 && |acc2| == 8 && |acc3| == 8
      invariant Sum(acc0) + Sum(acc1) + Sum(acc2) + Sum(acc3) == FloatDot(mul, x, y, offset)
    {
      acc0 := FmaAt(mul, x, y, offset, acc0);
      acc1 := FmaAt(mul, x, y, offset + 8, acc1);
      acc2 := FmaAt(mul, x, y, offset + 16, acc2);
      acc3 := FmaAt(mul, x, y, offset + 24, acc3);
      offset := offset + 32;
    }
  }

  /** `dot_product_real_complex_avx2`: the unrolled loop, 16- and 8-float chunks, the reduction, the tail. */
  method DotFloatsAvx2(mul: Mul, x: Lanes, y: Lanes, floatLen: nat) returns (total: real)
    requires floatLen <= |x| && floatLen <= |y|
    ensures total == FloatDot(mul, x, y, floatLen)
  {
    var acc0, acc1, acc2, acc3, offset := QuadAvx2(mul, x, y, floatLen);
    var start := offset;
    for i := 0 to (floatLen - start) / 16
      invariant offset == start + 16 * i && |acc0| == 8 && |acc1| == 8
      invariant Sum(acc0) + Sum(acc1) + Sum(acc2) + Sum(acc3) == FloatDot(mul, x, y, offset)
    {
      acc0 := FmaAt(mul, x, y, offset, acc0);
      acc1 := FmaAt(mul, x, y, offset + 8, acc1);
      offset := offset + 16;
    }
    start := offset;
    for i := 0 to (floatLen - start) / 8
      invariant offset == start + 8 * i && |acc0| == 8
      invariant Sum(acc0) + Sum(acc1) + Sum(acc2) + Sum(acc3) == FloatDot(mul, x, y, offset)
    {
      acc0 := FmaAt(mul, x, y, offset, acc0);
      offset := offset + 8;
    }
    var acc := CombineFour(acc0, acc1, acc2, acc3);
    HorizontalAddIsSum(acc);
    total := HorizontalAdd(acc);
    total := FlatTail(mul, x, y, offset, floatLen, total);
  }

  /** `dot_product_real_complex_avx2` over the reals: the real part of the inner product. */
  method DotRealAvx2(a: Vector, b: Vector) returns (total: real)
    ensures total == Dot(a, b).re
  {
    FlatDot(a, b, Common(a, b));
    total := DotFloatsAvx2(Product, Flat(a), Flat(b), 2 * Common(a, b));
  }

  /** The unrolled main loop of `dot_product_real_complex_neon`: 16 floats a round into four 4-lane accumulators. */
  method QuadNeon(mul: Mul, x: Lanes, y: Lanes, floatLen: nat)
      returns (acc0: Lanes, acc1: Lanes, acc2: Lanes, acc3: Lanes, offset: nat)
    requires floatLen <= |x| && floatLen <= |y|
    ensures |acc0| == 4 && |acc1| == 4 && |acc2| == 4 && |acc3| == 4 && offset <= floatLen
    ensures Sum(acc0) + Sum(acc1) + Sum(acc2) + Sum(acc3) == FloatDot(mul, x, y, offset)
  {
    acc0, acc1, acc2, acc3 := Splat(4), Splat(4), Splat(4), Splat(4);
    SumSplat(4, 4);
    offset := 0;
    for i := 0 to floatLen / 16
      invariant offset == 16 * i
      invariant |acc0| == 4 && |acc1| == 4 && |acc2| == 4 && |acc3| == 4
      invariant Sum(acc0) + Sum(acc1) + Sum(acc2) + Sum(acc3) == FloatDot(mul, x, y, offset)
    {
      acc0 := FmaAt(mul, x, y, offset, acc0);
      acc1 := FmaAt(mul, x, y, offset + 4, acc1);
      acc2 := FmaAt(mul, x, y, offset + 8, acc2);
      acc3 := FmaAt(mul, x, y, offset + 12, acc3);
      offset := offset + 16;
    }
  }

  /** `dot_product_real_complex_neon`: the unrolled loop, 8- and 4-float chunks, the reduction, the tail. */
  method DotFloatsNeon(mul: Mul, x: Lanes, y: Lanes, floatLen: nat) returns (total: real)
    requires floatLen <= |x| && floatLen <= |y|
    ensures total == FloatDot(mul, x, y, floatLen)
  {
    var acc0, acc1, acc2, acc3, offset := QuadNeon(mul, x, y, floatLen);
    var start := offset;
    for i := 0 to (floatLen - start) / 8
      invariant offset == start + 8 * i && |acc0| == 4 && |acc1| == 4
      invariant Sum(acc0) + Sum(acc1) + Sum(acc2) + Sum(acc3) == FloatDot(mul, x, y, offset)
    {
      acc0 := FmaAt(mul, x, y, offset, acc0);
      acc1 := FmaAt(mul, x, y, offset + 4, acc1);
      offset := offset + 8;
    }
    start := offset;
    for i := 0 to (floatLen - start) / 4
      invariant offset == start + 4 * i && |acc0| == 4
      invariant Sum(acc0) + Sum(acc1) + Sum(acc2) + Sum(acc3) == FloatDot(mul, x, y, offset)
    {
      acc0 := FmaAt(mul, x, y, offset, acc0);
      offset := offset + 4;
    }
    var acc := CombineFour(acc0, acc1, acc2, acc3);
    total := Sum(acc);
    total := FlatTail(mul, x, y, offset, floatLen, total);
  }

  /** `dot_product_real_complex_neon` over the reals: the real part of the inner product. */
  method DotRealNeon(a: Vector, b: Vector) returns (total: real)
    ensures total == Dot(a, b).re
  {
    FlatDot(a, b, Common(a, b));
    total := DotFloatsNeon(Product, Flat(a), Flat(b), 2 * Common(a, b));
  }

  // ---- the complex kernels ---------------------------------------------------------------------

  /** One register of the complex AVX2 kernel: real lanes against `b`, imaginary lanes against `b`
      with its pairs swapped. */
  method ComplexAt(mul: Mul, x: Lanes, y: Lanes, c: nat, re: Lanes, im: Lanes) returns (re': Lanes, im': Lanes)
    requires |re| == 8 && |im| == 8 && 2 * c + 8 <= |x| && 2 * c + 8 <= |y|
    ensures |re'| == 8 && |im'| == 8
    ensures Sum(re') - Sum(re) == FloatDot(mul, x, y, 2 * c + 8) - FloatDot(mul, x, y, 2 * c)
    ensures AltTo(im', 4) - AltTo(im, 4) == FloatCross(mul, x, y, c + 4) - FloatCross(mul, x, y, c)
  {
    re' := FmaAt(mul, x, y, 2 * c, re);
    im' := FmaSwappedAt(mul, x, y, c, im);
  }

  /** Two neighbouring registers of the main loop. */
  method ComplexPairAt(mul: Mul, x: Lanes, y: Lanes, c: nat, re0: Lanes, im0: Lanes, re1: Lanes, im1: Lanes)
      returns (re0': Lanes, im0': Lanes, re1': Lanes, im1': Lanes)
    requires |re0| == 8 && |im0| == 8 && |re1| == 8 && |im1| == 8 && 2 * c + 16 <= |x| && 2 * c + 16 <= |y|
    ensures |re0'| == 8 && |im0'| == 8 && |re1'| == 8 && |im1'| == 8
    ensures Sum(re0') + Sum(re1') == Sum(re0) + Sum(re1) + FloatDot(mul, x, y, 2 * c + 16) - FloatDot(mul, x, y, 2 * c)
    ensures AltTo(im0', 4) + AltTo(im1', 4)
         == AltTo(im0, 4) + AltTo(im1, 4) + FloatCross(mul, x, y, c + 8) - FloatCross(mul, x, y, c)
  {
    re0', im0' := ComplexAt(mul, x, y, c, re0, im0);
    re1', im1' := ComplexAt(mul, x, y, c + 4, re1, im1);
  }

  /** One round of the main loop: all eight accumulators. */
  method ComplexQuadAt(mul: Mul, x: Lanes, y: Lanes, c: nat, re: seq<Lanes>, im: seq<Lanes>)
      returns (re': seq<Lanes>, im': seq<Lanes>)
    requires Quad(re) && Quad(im) && 2 * c + 32 <= |x| && 2 * c + 32 <= |y|
    ensures Quad(re') && Quad(im')
    ensures Sums(re') == Sums(re) + FloatDot(mul, x, y, 2 * c + 32) - FloatDot(mul, x, y, 2 * c)
    ensures Alts(im') == Alts(im) + FloatCross(mul, x, y, c + 16) - FloatCross(mul, x, y, c)
  {
    var re0, im0, re1, im1 := ComplexPairAt(mul, x, y, c, re[0], im[0], re[1], im[1]);
    var re2, im2, re3, im3 := ComplexPairAt(mul, x, y, c + 8, re[2], im[2], re[3], im[3]);
    re', im' := [re0, re1, re2, re3], [im0, im1, im2, im3];
  }

  predicate Quad(acc: seq<Lanes>) { |acc| == 4 && forall i :: 0 <= i < 4 ==> |acc[i]| == 8 }

  function Sums(acc: seq<Lanes>): real
    requires Quad(acc)
  {
    Sum(acc[0]) + Sum(acc[1]) + Sum(acc[2]) + Sum(acc[3])
  }

  function Alts(acc: seq<Lanes>): real
    requires Quad(acc)
  {
    AltTo(acc[0], 4) + AltTo(acc[1], 4) + AltTo(acc[2], 4) + AltTo(acc[3], 4)
  }

  method ZeroQuad() returns (acc: seq<Lanes>)
    ensures Quad(acc) && Sums(acc) == 0.0 && Alts(acc) == 0.0
  {
    acc := [Splat(8), Splat(8), Splat(8), Splat(8)];
    SumSplat(8, 8);
    AltSplat(8, 4);
  }

  /** The unrolled main loop of `dot_product_complex_avx2_dual`: 32 floats a round. The third and
      fourth accumulators are final here, so they are handed on already added together. */
  method QuadComplexAvx2(mul: Mul, x: Lanes, y: Lanes, len: nat)
      returns (re0: Lanes, im0: Lanes, re1: Lanes, im1: Lanes, re23: Lanes, im23: Lanes, c: nat)
    requires 2 * len <= |x| && 2 * len <= |y|
    ensures |re0| == 8 && |im0| == 8 && |re1| == 8 && |im1| == 8 && |re23| == 8 && |im23| == 8 && c <= len
    ensures Sum(re0) + Sum(re1) + Sum(re23) == FloatDot(mul, x, y, 2 * c)
    ensures AltTo(im0, 4) + AltTo(im1, 4) + AltTo(im23, 4) == FloatCross(mul, x, y, c)
  {
    var re := ZeroQuad();
    var im := ZeroQuad();
    c := 0;
    for i := 0 to (2 * len) / 32
      invariant c == 16 * i && Quad(re) && Quad(im)
      invariant Sums(re) == FloatDot(mul, x, y, 2 * c) && Alts(im) == FloatCross(mul, x, y, c)
    {
      re, im := ComplexQuadAt(mul, x, y, c, re, im);
      c := c + 16;
    }
    re0, im0, re1, im1 := re[0], im[0], re[1], im[1];
    re23, im23 := AddPair(re[2], re[3], im[2], im[3]);
  }

  method AddPair(re0: Lanes, re1: Lanes, im0: Lanes, im1: Lanes) returns (re: Lanes, im: Lanes)
    requires |re0| == 8 && |im0| == 8 && |re1| == 8 && |im1| == 8
    ensures |re| == 8 && Sum(re) == Sum(re0) + Sum(re1)
    ensures |im| == 8 && AltTo(im, 4) == AltTo(im0, 4) + AltTo(im1, 4)
  {
    re, im := AddLanes(re0, re1), AddLanes(im0, im1);
    SumAdd(re0, re1, 8);
    AltAdd(im0, im1, 4);
  }

  /** Final reduction of the complex AVX2 kernel: store both accumulators, add eight lanes of each,
      the odd imaginary ones negated. */
  method ReduceComplex(re01: Lanes, re23: Lanes, im01: Lanes, im23: Lanes) returns (re: real, im: real)
    requires |re01| == 8 && |re23| == 8 && |im01| == 8 && |im23| == 8
    ensures re == Sum(re01) + Sum(re23) && im == AltTo(im01, 4) + AltTo(im23, 4)
  {
    var accRe, accIm := AddLanes(re01, re23), AddLanes(im01, im23);
    SumAdd(re01, re23, 8);
    AltAdd(im01, im23, 4);
    SumOfEight(accRe);
    AltOfEight(accIm);
    re := (accRe[0] + accRe[1]) + (accRe[2] + accRe[3]) + (accRe[4] + accRe[5]) + (accRe[6] + accRe[7]);
    im := (accIm[0] - accIm[1]) + (accIm[2] - accIm[3]) + (accIm[4] - accIm[5]) + (accIm[6] - accIm[7]);
  }

  /** The vector part of `dot_product_complex_avx2_dual`: the main loop, then 16-float chunks. The
      sign of the imaginary part is applied only in the final even-minus-odd reduction. */
  method ComplexChunksAvx2(mul: Mul, x: Lanes, y: Lanes, len: nat) returns (re: real, im: real, c: nat)
    requires 2 * len <= |x| && 2 * len <= |y|
    ensures c <= len && re == FloatDot(mul, x, y, 2 * c) && im == FloatCross(mul, x, y, c)
  {
    var re0, im0, re1, im1, re23, im23, start := QuadComplexAvx2(mul, x, y, len);
    c := start;
    for i := 0 to (2 * len - 2 * start) / 16
      invariant c == start + 8 * i && |re0| == 8 && |im0| == 8 && |re1| == 8 && |im1| == 8
      invariant Sum(re0) + Sum(re1) + Sum(re23) == FloatDot(mul, x, y, 2 * c)
      invariant AltTo(im0, 4) + AltTo(im1, 4) + AltTo(im23, 4) == FloatCross(mul, x, y, c)
    {
      re0, im0, re1, im1 := ComplexPairAt(mul, x, y, c, re0, im0, re1, im1);
      c := c + 8;
    }
    var re01, im01 := AddPair(re0, re1, im0, im1);
    re, im := ReduceComplex(re01, re23, im01, im23);
  }

  /** `dot_product_complex_avx2_dual` over the reals. */
  method DotComplexAvx2(a: Vector, b: Vector) returns (r: Complex)
    ensures r == Dot(a, b)
  {
    var re, im, c := ComplexChunksAvx2(Product, Flat(a), Flat(b), Common(a, b));
    FlatDot(a, b, c);
    FlatCross(a, b, c);
    r := ComplexTail(a, b, c, Complex(re, im));
  }

  /** The scalar remainder shared by the complex kernels. */
  method ComplexTail(a: Vector, b: Vector, from: nat, sum: Complex) returns (r: Complex)
    requires from <= Common(a, b) && sum == DotTo(a, b, from)
    ensures r == Dot(a, b)
  {
    var re, im := sum.re, sum.im;
    for i := from to Common(a, b)
      invariant Complex(re, im) == DotTo(a, b, i)
    {
      re := re + (a[i].re * b[i].re + a[i].im * b[i].im);
      im := im + (a[i].re * b[i].im - a[i].im * b[i].re);
    }
    r := Complex(re, im);
  }

  /** `vld2q_f32`: the real (or imaginary) parts of four components, de-interleaved from `o` on. */
  function Deinterleave(x: Lanes, o: nat): (r: Lanes)
    requires o + 7 <= |x|
    ensures |r| == 4
  {
    [x[o], x[o + 2], x[o + 4], x[o + 6]]
  }

  /** Four fused steps on one NEON register pair: real and imaginary lanes of four components. */
  method NeonAt(mul: Mul, x: Lanes, y: Lanes, c: nat, re: Lanes, im: Lanes) returns (re': Lanes, im': Lanes)
    requires |re| == 4 && |im| == 4 && 2 * c + 8 <= |x| && 2 * c + 8 <= |y|
    ensures |re'| == 4 && |im'| == 4
    ensures Sum(re') - Sum(re) == FloatDot(mul, x, y, 2 * c + 8) - FloatDot(mul, x, y, 2 * c)
    ensures Sum(im') - Sum(im) == FloatCross(mul, x, y, c + 4) - FloatCross(mul, x, y, c)
  {
    var aRe, aIm := Deinterleave(x, 2 * c), Deinterleave(x, 2 * c + 1);
    var bRe, bIm := Deinterleave(y, 2 * c), Deinterleave(y, 2 * c + 1);
    re' := FMAdd(mul, aRe, bRe, re);
    re' := FMAdd(mul, aIm, bIm, re');
    im' := FMAdd(mul, aRe, bIm, im);
    im' := FMSub(mul, aIm, bRe, im');
    SumOfFour(re);
    SumOfFour(re');
    SumOfFour(im);
    SumOfFour(im');
    DotUnrolled(mul, x, y, 2 * c);
    CrossUnrolled(mul, x, y, c);
  }

  lemma SumOfFour(v: Lanes)
    requires 4 == |v|
    ensures Sum(v) == v[0] + v[1] + v[2] + v[3]
  {
    assert SumTo(v, 1) == v[0];
    assert SumTo(v, 2) == v[0] + v[1];
    assert SumTo(v, 3) == SumTo(v, 2) + v[2];
  }

  lemma DotUnrolled(mul: Mul, x: Lanes, y: Lanes, o: nat)
    requires o + 8 <= |x| && o + 8 <= |y|
    ensures FloatDot(mul, x, y, o + 8) == FloatDot(mul, x, y, o)
      + (mul(x[o], y[o]) + mul(x[o + 1], y[o + 1])) + (mul(x[o + 2], y[o + 2]) + mul(x[o + 3], y[o + 3]))
      + (mul(x[o + 4], y[o + 4]) + mul(x[o + 5], y[o + 5])) + (mul(x[o + 6], y[o + 6]) + mul(x[o + 7], y[o + 7]))
  {
    assert FloatDot(mul, x, y, o + 1) == FloatDot(mul, x, y, o) + mul(x[o], y[o]);
    assert FloatDot(mul, x, y, o + 2) == FloatDot(mul, x, y, o + 1) + mul(x[o + 1], y[o + 1]);
    assert FloatDot(mul, x, y, o + 3) == FloatDot(mul, x, y, o + 2) + mul(x[o + 2], y[o + 2]);
    assert FloatDot(mul, x, y, o + 4) == FloatDot(mul, x, y, o + 3) + mul(x[o + 3], y[o + 3]);
    assert FloatDot(mul, x, y, o + 5) == FloatDot(mul, x, y, o + 4) + mul(x[o + 4], y[o + 4]);
    assert FloatDot(mul, x, y, o + 6) == FloatDot(mul, x, y, o + 5) + mul(x[o + 5], y[o + 5]);
    assert FloatDot(mul, x, y, o + 7) == FloatDot(mul, x, y, o + 6) + mul(x[o + 6], y[o + 6]);
  }

  /** Two neighbouring NEON chunks. */
  method NeonPairAt(mul: Mul, x: Lanes, y: Lanes, c: nat, re0: Lanes, im0: Lanes, re1: Lanes, im1: Lanes)
      returns (re0': Lanes, im0': Lanes, re1': Lanes, im1': Lanes)
    requires |re0| == 4 && |im0| == 4 && |re1| == 4 && |im1| == 4 && 2 * c + 16 <= |x| && 2 * c + 16 <= |y|
    ensures |re0'| == 4 && |im0'| == 4 && |re1'| == 4 && |im1'| == 4
    ensures Sum(re0') + Sum(re1') == Sum(re0) + Sum(re1) + FloatDot(mul, x, y, 2 * c + 16) - FloatDot(mul, x, y, 2 * c)
    ensures Sum(im0') + Sum(im1') == Sum(im0) + Sum(im1) + FloatCross(mul, x, y, c + 8) - FloatCross(mul, x, y, c)
  {
    re0', im0' := NeonAt(mul, x, y, c, re0, im0);
    re1', im1' := NeonAt(mul, x, y, c + 4, re1, im1);
  }

  /** The vector part of `dot_product_complex_neon_dual`: chunks of 8 and of 4 components. */
  method ComplexChunksNeon(mul: Mul, x: Lanes, y: Lanes, len: nat) returns (re: real, im: real, c: nat)
    requires 2 * len <= |x| && 2 * len <= |y|
    ensures c <= len && re == FloatDot(mul, x, y, 2 * c) && im == FloatCross(mul, x, y, c)
  {
    var re0, im0, re1, im1 := Splat(4), Splat(4), Splat(4), Splat(4);
    SumSplat(4, 4);
    c := 0;
    for i := 0 to len / 8
      invariant c == 8 * i && |re0| == 4 && |im0| == 4 && |re1| == 4 && |im1| == 4
      invariant Sum(re0) + Sum(re1) == FloatDot(mul, x, y, 2 * c)
      invariant Sum(im0) + Sum(im1) == FloatCross(mul, x, y, c)
    {
      re0, im0, re1, im1 := NeonPairAt(mul, x, y, c, re0, im0, re1, im1);
      c := c + 8;
    }
    var start := c;
    for i := 0 to (len - start) / 4
      invariant c == start + 4 * i && |re0| == 4 && |im0| == 4
      invariant Sum(re0) + Sum(re1) == FloatDot(mul, x, y, 2 * c)
      invariant Sum(im0) + Sum(im1) == FloatCross(mul, x, y, c)
    {
      re0, im0 := NeonAt(mul, x, y, c, re0, im0);
      c := c + 4;
    }
    SumAdd(re0, re1, 4);
    SumAdd(im0, im1, 4);
    re, im := Sum(AddLanes(re0, re1)), Sum(AddLanes(im0, im1));
  }

  /** `dot_product_complex_neon_dual` over the reals. */
  method DotComplexNeon(a: Vector, b: Vector) returns (r: Complex)
    ensures r == Dot(a, b)
  {
    var re, im, c := ComplexChunksNeon(Product, Flat(a), Flat(b), Common(a, b));
    FlatDot(a, b, c);
    FlatCross(a, b, c);
    r := ComplexTail(a, b, c, Complex(re, im));
  }

  /** One component of the unrolled scalar kernel. */
  method ScalarAt(a: Vector, b: Vector, i: nat, sum: Complex) returns (r: Complex)
    requires i < Common(a, b) && sum == DotTo(a, b, i)
    ensures r == DotTo(a, b, i + 1)
  {
    assert DotTo(a, b, i + 1) == Add(sum, ConjMul(a[i], b[i]));
    r := Complex(sum.re + (a[i].re * b[i].re + a[i].im * b[i].im), sum.im + (a[i].re * b[i].im - a[i].im * b[i].re));
  }

  /** `dot_product_complex_scalar_unrolled`: four components per round, then the remainder. */
  method DotComplexScalar(a: Vector, b: Vector) returns (r: Complex)
    ensures r == Dot(a, b)
  {
    var len := Common(a, b);
    r := Zero;
    for c := 0 to len / 4
      invariant r == DotTo(a, b, 4 * c)
    {
      r := ScalarAt(a, b, 4 * c, r);
      r := ScalarAt(a, b, 4 * c + 1, r);
      r := ScalarAt(a, b, 4 * c + 2, r);
      r := ScalarAt(a, b, 4 * c + 3, r);
    }
    r := ComplexTail(a, b, 4 * (len / 4), r);
  }
}
