/** Complex vectors over the reals and the plain inner product the kernels are measured against. */
module ComplexVectors {

  datatype Complex = Complex(re: real, im: real)

  const Zero: Complex := Complex(0.0, 0.0)

  function Add(x: Complex, y: Complex): Complex { Complex(x.re + y.re, x.im + y.im) }

  function Sub(x: Complex, y: Complex): Complex { Complex(x.re - y.re, x.im - y.im) }

  function Mul(x: Complex, y: Complex): Complex {
    Complex(x.re * y.re - x.im * y.im, x.re * y.im + x.im * y.re)
  }

  function Conj(x: Complex): Complex { Complex(x.re, -x.im) }

  /** `|x|^2`. */
  function NormSqr(x: Complex): real { x.re * x.re + x.im * x.im }

  /** `conj(x) * y`, one term of the inner product. */
  function ConjMul(x: Complex, y: Complex): Complex {
    Complex(x.re * y.re + x.im * y.im, x.re * y.im - x.im * y.re)
  }

  type Vector = seq<Complex>

  function Common(a: Vector, b: Vector): (n: nat)
    ensures n <= |a| && n <= |b| && (n == |a| || n == |b|)
  {
    if |a| <= |b| then |a| else |b|
  }

  /** The first `n` terms of `<a|b> = sum_j conj(a_j) b_j`. */
  function DotTo(a: Vector, b: Vector, n: nat): Complex
    requires n <= |a| && n <= |b|
  {
    if n == 0 then Zero else Add(DotTo(a, b, n - 1), ConjMul(a[n - 1], b[n - 1]))
  }

  function Dot(a: Vector, b: Vector): Complex { DotTo(a, b, Common(a, b)) }

  /** The first `n` terms of the squared norm. */
  function NormTo(a: Vector, n: nat): real
    requires n <= |a|
  {
    if n == 0 then 0.0 else NormTo(a, n - 1) + NormSqr(a[n - 1])
  }

  function NormSquared(a: Vector): real { NormTo(a, |a|) }
}
