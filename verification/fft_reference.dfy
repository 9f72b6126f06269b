/**
 The textbook radix-2 recursion, which sends the even-indexed samples to the first
 recursive call, and its relation to the transform as written.

 Swapping the two halves at every level of the recursion amounts to reading the window
 backwards: for every power-of-two length and every twiddle, the transform as written
 equals the textbook transform of the time-reversed window.
 */
module FftReference {
  import opened ComplexArith
  import opened Fft

  function TextbookTransform(w: Twiddle, s: seq<Complex>): (r: seq<Complex>)
    requires |s| >= 1
    ensures |r| == |s|
    decreases |s|
  {
    if |s| == 1 then s
    else Combine(w, |s|, TextbookTransform(w, EvenIndexed(s)), TextbookTransform(w, OddIndexed(s)))
  }

  function Reverse(s: seq<Complex>): (r: seq<Complex>)
    ensures |r| == |s|
  {
    seq(|s|, i requires 0 <= i < |s| => s[|s| - 1 - i])
  }

  /** Merges two halves back into one window, `e[0], o[0], e[1], o[1], ...`. */
  function Interleave(e: seq<Complex>, o: seq<Complex>): (r: seq<Complex>)
    requires |e| == |o|
    ensures |r| == 2 * |e|
  {
    if |e| == 0 then [] else [e[0], o[0]] + Interleave(e[1..], o[1..])
  }

  /**
   The split loses nothing but, for odd lengths, the last sample: interleaving the two
   halves gives back the window cut to an even length.
   */
  lemma {:induction false} SplitInterleaveRoundTrip(s: seq<Complex>)
    ensures Interleave(EvenIndexed(s), OddIndexed(s)) == s[..2 * (|s| / 2)]
    decreases |s|
  {
    if |s| >= 2 {
      var t := s[2..];
      SplitInterleaveRoundTrip(t);
      assert EvenIndexed(s)[1..] == EvenIndexed(t);
      assert OddIndexed(s)[1..] == OddIndexed(t);
      assert s[..2 * (|s| / 2)] == [s[0], s[1]] + t[..2 * (|t| / 2)];
    }
  }

  /** On an even-length window, splitting the reversal reverses and swaps the halves. */
  lemma SplitOfReverse(s: seq<Complex>)
    requires |s| % 2 == 0
    ensures EvenIndexed(Reverse(s)) == Reverse(OddIndexed(s))
    ensures OddIndexed(Reverse(s)) == Reverse(EvenIndexed(s))
  {
    var n, m := |s|, |s| / 2;
    forall i | 0 <= i < m
      ensures EvenIndexed(Reverse(s))[i] == Reverse(OddIndexed(s))[i]
      ensures OddIndexed(Reverse(s))[i] == Reverse(EvenIndexed(s))[i]
    {
      assert n - 1 - 2 * i == 2 * (m - 1 - i) + 1;
      assert n - 1 - (2 * i + 1) == 2 * (m - 1 - i);
    }
  }

  /** The transform as written is the textbook transform of the time-reversed window. */
  lemma {:induction false} TransformIsTextbookOfReversed(w: Twiddle, s: seq<Complex>)
    requires IsPowerOfTwo(|s|)
    ensures Transform(w, s) == TextbookTransform(w, Reverse(s))
    decreases |s|
  {
    if |s| == 1 {
      assert Reverse(s) == s;
    } else {
      HalvesArePowersOfTwo(s);
      SplitOfReverse(s);
      TransformIsTextbookOfReversed(w, OddIndexed(s));
      TransformIsTextbookOfReversed(w, EvenIndexed(s));
    }
  }

  /**
   The two recursions really differ: for a two-point window whose twiddle `w(0, 2)` is
   exactly one, as it is for `cmplx.Rect(1, 0)`, the unit impulse `[1, 0]` transforms to
   `[1, -1]` as written but to `[1, 1]` in the textbook order.
   */
  lemma TwoPointImpulse(w: Twiddle)
    requires w(0, 2) == Complex(1.0, 0.0)
    ensures Transform(w, [Complex(1.0, 0.0), Zero]) == [Complex(1.0, 0.0), Complex(-1.0, 0.0)]
    ensures TextbookTransform(w, [Complex(1.0, 0.0), Zero]) == [Complex(1.0, 0.0), Complex(1.0, 0.0)]
  {
    var s := [Complex(1.0, 0.0), Zero];
    assert OddIndexed(s) == [Zero];
    assert EvenIndexed(s) == [Complex(1.0, 0.0)];
  }
}
