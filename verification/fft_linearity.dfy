/**
 Linearity of the transform as written: it commutes with pointwise sums and with
 multiplication by a complex scalar, for every twiddle and every non-empty length.
 */
module FftLinearity {
  import opened ComplexArith
  import opened Fft

  lemma SplitOfSum(x: seq<Complex>, y: seq<Complex>)
    requires |x| == |y|
    ensures OddIndexed(AddSeq(x, y)) == AddSeq(OddIndexed(x), OddIndexed(y))
    ensures EvenIndexed(AddSeq(x, y)) == AddSeq(EvenIndexed(x), EvenIndexed(y))
  {
  }

  lemma SplitOfScale(a: Complex, x: seq<Complex>)
    ensures OddIndexed(ScaleSeq(a, x)) == ScaleSeq(a, OddIndexed(x))
    ensures EvenIndexed(ScaleSeq(a, x)) == ScaleSeq(a, EvenIndexed(x))
  {
  }

  /** The transform of a sum is the sum of the transforms. */
  lemma {:induction false} TransformAdditive(w: Twiddle, x: seq<Complex>, y: seq<Complex>)
    requires |x| == |y| >= 1
    ensures Transform(w, AddSeq(x, y)) == AddSeq(Transform(w, x), Transform(w, y))
    decreases |x|
  {
    if |x| >= 2 {
      var n, m := |x|, |x| / 2;
      SplitOfSum(x, y);
      TransformAdditive(w, OddIndexed(x), OddIndexed(y));
      TransformAdditive(w, EvenIndexed(x), EvenIndexed(y));
      var fex, fox := Transform(w, OddIndexed(x)), Transform(w, EvenIndexed(x));
      var fey, foy := Transform(w, OddIndexed(y)), Transform(w, EvenIndexed(y));
      forall k | 0 <= k < n
        ensures Transform(w, AddSeq(x, y))[k] == AddSeq(Transform(w, x), Transform(w, y))[k]
      {
        if k < m {
          MulDistributes(w(k, n), fox[k], foy[k]);
        } else if k < 2 * m {
          MulDistributes(w(k - m, n), fox[k - m], foy[k - m]);
        }
      }
    }
  }

  /** The transform of a scaled window is the scaled transform. */
  lemma {:induction false} TransformHomogeneous(w: Twiddle, a: Complex, x: seq<Complex>)
    requires |x| >= 1
    ensures Transform(w, ScaleSeq(a, x)) == ScaleSeq(a, Transform(w, x))
    decreases |x|
  {
    if |x| >= 2 {
      var n, m := |x|, |x| / 2;
      SplitOfScale(a, x);
      TransformHomogeneous(w, a, OddIndexed(x));
      TransformHomogeneous(w, a, EvenIndexed(x));
      var fe, fo := Transform(w, OddIndexed(x)), Transform(w, EvenIndexed(x));
      forall k | 0 <= k < n
        ensures Transform(w, ScaleSeq(a, x))[k] == ScaleSeq(a, Transform(w, x))[k]
      {
        if k < m {
          MulCommutesScale(w(k, n), a, fo[k]);
          MulDistributes(a, fe[k], Mul(w(k, n), fo[k]));
        } else if k < 2 * m {
          MulCommutesScale(w(k - m, n), a, fo[k - m]);
          MulDistributes(a, fe[k - m], Mul(w(k - m, n), fo[k - m]));
        }
      }
    }
  }

  /** `transform(a*x + b*y) == a*transform(x) + b*transform(y)`. */
  lemma TransformLinear(w: Twiddle, a: Complex, x: seq<Complex>, b: Complex, y: seq<Complex>)
    requires |x| == |y| >= 1
    ensures Transform(w, AddSeq(ScaleSeq(a, x), ScaleSeq(b, y)))
         == AddSeq(ScaleSeq(a, Transform(w, x)), ScaleSeq(b, Transform(w, y)))
  {
    TransformAdditive(w, ScaleSeq(a, x), ScaleSeq(b, y));
    TransformHomogeneous(w, a, x);
    TransformHomogeneous(w, b, y);
  }

  /** A silent window has a silent spectrum, whatever the twiddle. */
  lemma SilentWindowSilentSpectrum(w: Twiddle, x: seq<Complex>)
    requires |x| >= 1 && AllZero(x)
    ensures AllZero(Transform(w, x))
  {
    assert x == ScaleSeq(Zero, x);
    TransformHomogeneous(w, Zero, x);
  }
}
