/**
 Complex numbers as pairs of reals: the idealised counterpart of Go's `complex128`.
 Only the ring operations the transform uses are defined here; the twiddle factor
 `cmplx.Rect(1, theta)` is not computed but passed to the transform as a parameter.
 */
module ComplexArith {

  datatype Complex = Complex(re: real, im: real)

  /** `0+0i`, the zero value Go gives every element of a fresh slice. */
  const Zero: Complex := Complex(0.0, 0.0)

  function Add(a: Complex, b: Complex): Complex {
    Complex(a.re + b.re, a.im + b.im)
  }

  function Sub(a: Complex, b: Complex): Complex {
    Complex(a.re - b.re, a.im - b.im)
  }

  function Mul(a: Complex, b: Complex): Complex {
    Complex(a.re * b.re - a.im * b.im, a.re * b.im + a.im * b.re)
  }

  /**
   The squared modulus `re*re + im*im`. The source compares `math.Sqrt` of this value;
   since the square root is strictly increasing on non-negative reals, comparing squared
   moduli selects the same bins.
   */
  function ModulusSq(c: Complex): (m: real)
    ensures m >= 0.0
    ensures c == Zero ==> m == 0.0
  {
    SquareNonNegative(c.re);
    SquareNonNegative(c.im);
    c.re * c.re + c.im * c.im
  }

  lemma SquareNonNegative(x: real)
    ensures x * x >= 0.0
  {
    if x < 0.0 {
      var y := -x;
      assert y > 0.0;
      assert y * y > 0.0;
      assert x * x == y * y;
    }
  }

  /** Multiplication by the complex scalar `a` distributes over `Add` and over `Sub`. */
  lemma MulDistributes(a: Complex, x: Complex, y: Complex)
    ensures Mul(a, Add(x, y)) == Add(Mul(a, x), Mul(a, y))
    ensures Mul(a, Sub(x, y)) == Sub(Mul(a, x), Mul(a, y))
  {
  }

  /** Scaling by `a` commutes with multiplication by a twiddle factor `t`. */
  lemma MulCommutesScale(t: Complex, a: Complex, x: Complex)
    ensures Mul(t, Mul(a, x)) == Mul(a, Mul(t, x))
  {
    assert t.re * (a.re * x.re - a.im * x.im) - t.im * (a.re * x.im + a.im * x.re)
        == a.re * (t.re * x.re - t.im * x.im) - a.im * (t.re * x.im + t.im * x.re);
    assert t.re * (a.re * x.im + a.im * x.re) + t.im * (a.re * x.re - a.im * x.im)
        == a.re * (t.re * x.im + t.im * x.re) + a.im * (t.re * x.re - t.im * x.im);
  }

  /** Pointwise sum of two equally long sequences. */
  function AddSeq(x: seq<Complex>, y: seq<Complex>): (r: seq<Complex>)
    requires |x| == |y|
    ensures |r| == |x|
  {
    seq(|x|, i requires 0 <= i < |x| => Add(x[i], y[i]))
  }

  /** Every element multiplied by the complex scalar `a`. */
  function ScaleSeq(a: Complex, x: seq<Complex>): (r: seq<Complex>)
    ensures |r| == |x|
  {
    seq(|x|, i requires 0 <= i < |x| => Mul(a, x[i]))
  }

  predicate AllZero(x: seq<Complex>) {
    forall i :: 0 <= i < |x| ==> x[i] == Zero
  }
}
