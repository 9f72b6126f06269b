/**
 The recursive radix-2 transform of main.go:247-291, over idealised complex numbers.

 The twiddle factor `cmplx.Rect(1, -2*pi*k/n)` is not computed: every definition takes it
 as a parameter `w`, so each fact proved here holds for every choice of twiddle.

 The source names its halves the other way round from the textbook: the slice called
 `Xeven` receives the odd-indexed samples and `Xodd` the even-indexed ones (main.go:266-267).
 `Transform` keeps that order; `FftReference` relates it to the textbook order.
 */
module Fft {
  import opened ComplexArith

  /** `w(k, n)` stands for the twiddle factor of bin `k` in an `n`-point transform. */
  type Twiddle = (nat, nat) -> Complex

  predicate IsPowerOfTwo(n: nat)
    decreases n
  {
    if n <= 1 then n == 1 else n % 2 == 0 && IsPowerOfTwo(n / 2)
  }

  /** The samples at odd indices: what the source copies into `Xeven`. */
  function OddIndexed(s: seq<Complex>): (r: seq<Complex>)
    ensures |r| == |s| / 2
  {
    seq(|s| / 2, i requires 0 <= i < |s| / 2 => s[2 * i + 1])
  }

  /** The samples at even indices: what the source copies into `Xodd`. */
  function EvenIndexed(s: seq<Complex>): (r: seq<Complex>)
    ensures |r| == |s| / 2
  {
    seq(|s| / 2, i requires 0 <= i < |s| / 2 => s[2 * i])
  }

  /**
   Bin `k` of the combine loop: the lower half gets `fe[k] + w(k,n)*fo[k]`, the upper half
   `fe[k] - w(k,n)*fo[k]`, and for odd `n` the last bin is never written and keeps `0+0i`.
   */
  function Bin(w: Twiddle, n: nat, fe: seq<Complex>, fo: seq<Complex>, k: nat): Complex
    requires |fe| == n / 2 && |fo| == n / 2
  {
    var m := n / 2;
    if k < m then Add(fe[k], Mul(w(k, n), fo[k]))
    else if k < 2 * m then Sub(fe[k - m], Mul(w(k - m, n), fo[k - m]))
    else Zero
  }

  function Combine(w: Twiddle, n: nat, fe: seq<Complex>, fo: seq<Complex>): (r: seq<Complex>)
    requires |fe| == n / 2 && |fo| == n / 2
    ensures |r| == n
  {
    seq(n, k requires 0 <= k < n => Bin(w, n, fe, fo, k))
  }

  /**
   The transform as written. A single sample is returned unchanged; otherwise the first
   recursive call gets the odd-indexed samples, the second the even-indexed ones. An empty
   input recurses forever in the source, so it is excluded here.
   */
  function Transform(w: Twiddle, s: seq<Complex>): (r: seq<Complex>)
    requires |s| >= 1
    ensures |r| == |s|
    decreases |s|
  {
    if |s| == 1 then s
    else Combine(w, |s|, Transform(w, OddIndexed(s)), Transform(w, EvenIndexed(s)))
  }

  /**
   The combine equations of main.go:280-288, in terms of the two recursive results: every
   bin below `n/2` and its partner `n/2` higher are written by one butterfly. For even `n`
   the upper equation covers every bin from `n/2` on, so each bin is written exactly once;
   for odd `n` the last bin is the only one left at zero.
   */
  lemma CombineEquations(w: Twiddle, s: seq<Complex>)
    requires |s| >= 2
    ensures
      var n, m := |s|, |s| / 2;
      var r, fe, fo := Transform(w, s), Transform(w, OddIndexed(s)), Transform(w, EvenIndexed(s));
      && (forall k :: 0 <= k < m ==> r[k] == Add(fe[k], Mul(w(k, n), fo[k])))
      && (forall k :: 0 <= k < m ==> r[k + m] == Sub(fe[k], Mul(w(k, n), fo[k])))
      && (n % 2 == 0 ==> forall j :: m <= j < n ==> r[j] == Sub(fe[j - m], Mul(w(j - m, n), fo[j - m])))
      && (n % 2 == 1 ==> r[n - 1] == Zero)
  {
  }

  /** A single sample is its own transform (main.go:252-254). */
  lemma SingleSampleIsFixed(w: Twiddle, s: seq<Complex>)
    requires |s| == 1
    ensures Transform(w, s) == s
  {
  }

  /** The halves of a power of two longer than one are powers of two of half the length. */
  lemma HalvesArePowersOfTwo(s: seq<Complex>)
    requires IsPowerOfTwo(|s|) && |s| >= 2
    ensures |s| % 2 == 0
    ensures IsPowerOfTwo(|OddIndexed(s)|) && IsPowerOfTwo(|EvenIndexed(s)|)
    ensures 2 * |OddIndexed(s)| == |s| && 2 * |EvenIndexed(s)| == |s|
  {
  }

  /**
   The same transform written the way main.go writes it: two slices filled by one loop,
   two recursive calls, and a butterfly loop over a fresh zero-initialised slice.
   */
  method ComputeFft(w: Twiddle, samples: seq<Complex>) returns (freqbins: seq<Complex>)
    requires |samples| >= 1
    ensures |freqbins| == |samples|
    ensures freqbins == Transform(w, samples)
    decreases |samples|
  {
    var n := |samples|;
    if n == 1 {
      return samples;
    }
    var xEven, xOdd := SplitSamples(samples);
    var fEven := ComputeFft(w, xEven);
    var fOdd := ComputeFft(w, xOdd);
    freqbins := Butterflies(w, n, fEven, fOdd);
  }

  /** The copy loop of main.go:261-268. */
  method SplitSamples(samples: seq<Complex>) returns (xEven: seq<Complex>, xOdd: seq<Complex>)
    ensures |xEven| == |samples| / 2 && |xOdd| == |samples| / 2
    ensures forall i :: 0 <= i < |xEven| ==> xEven[i] == samples[2 * i + 1]
    ensures forall i :: 0 <= i < |xOdd| ==> xOdd[i] == samples[2 * i]
    ensures xEven == OddIndexed(samples) && xOdd == EvenIndexed(samples)
  {
    var m := |samples| / 2;
    var e := new Complex[m](_ => Zero);
    var o := new Complex[m](_ => Zero);
    var i := 0;
    while i < m
      invariant 0 <= i <= m
      invariant forall j :: 0 <= j < i ==> e[j] == samples[2 * j + 1]
      invariant forall j :: 0 <= j < i ==> o[j] == samples[2 * j]
    {
      e[i] := samples[2 * i + 1];
      o[i] := samples[2 * i];
      i := i + 1;
    }
    xEven, xOdd := e[..], o[..];
  }

  /** The butterfly loop of main.go:277-288, which runs while `k != n/2`. */
  method Butterflies(w: Twiddle, n: nat, fEven: seq<Complex>, fOdd: seq<Complex>) returns (freqbins: seq<Complex>)
    requires |fEven| == n / 2 && |fOdd| == n / 2
    ensures freqbins == Combine(w, n, fEven, fOdd)
  {
    var m := n / 2;
    freqbins := seq(n, _ => Zero);
    var k := 0;
    while k != m
      invariant 0 <= k <= m && |freqbins| == n
      invariant forall j :: 0 <= j < n ==> freqbins[j] == (if j < k || m <= j < m + k then Bin(w, n, fEven, fOdd, j) else Zero)
    {
      var t := Mul(w(k, n), fOdd[k]);
      freqbins := freqbins[k := Add(fEven[k], t)];
      freqbins := freqbins[k + m := Sub(fEven[k], t)];
      k := k + 1;
    }
  }
}
