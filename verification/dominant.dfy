/**
 The dominant-frequency extractor of main.go:228-245: transform the window, scan the
 lower half of the spectrum for the bin of largest magnitude, and convert that bin to Hz.
 */
module DominantFrequency {
  import opened ComplexArith
  import opened Fft
  import FftLinearity

  /**
   `i` is the bin the scan settles on: a bin of the lower half (or 0 when the lower half is
   empty) whose magnitude no lower-half bin exceeds and every earlier bin falls short of.
   The strict inequality on earlier bins is the first-maximum rule that the update
   `magnitude > maxMag` produces.
   */
  predicate IsDominantBin(spectrum: seq<Complex>, i: nat) {
    var half := |spectrum| / 2;
    if half == 0 then i == 0
    else
      && i < half
      && (forall j :: 0 <= j < half ==> ModulusSq(spectrum[j]) <= ModulusSq(spectrum[i]))
      && (forall j :: 0 <= j < i ==> ModulusSq(spectrum[j]) < ModulusSq(spectrum[i]))
  }

  /** At most one bin qualifies, so the scan's choice is fully determined. */
  lemma DominantBinUnique(spectrum: seq<Complex>, i: nat, j: nat)
    requires IsDominantBin(spectrum, i) && IsDominantBin(spectrum, j)
    ensures i == j
  {
    if |spectrum| / 2 > 0 {
      assert ModulusSq(spectrum[i]) == ModulusSq(spectrum[j]);
    }
  }

  /** When every lower-half bin is silent the scan never moves off bin 0. */
  lemma SilenceSelectsBinZero(spectrum: seq<Complex>, i: nat)
    requires IsDominantBin(spectrum, i)
    requires forall j :: 0 <= j < |spectrum| / 2 ==> ModulusSq(spectrum[j]) == 0.0
    ensures i == 0
  {
    if |spectrum| / 2 > 0 {
      assert ModulusSq(spectrum[0]) == 0.0 && ModulusSq(spectrum[i]) == 0.0;
    }
  }

  /** The scan of main.go:233-241, starting from `maxMag = 0` and `maxIndex = 0`. */
  method DominantBinIndex(spectrum: seq<Complex>) returns (maxIndex: nat)
    ensures IsDominantBin(spectrum, maxIndex)
  {
    var half := |spectrum| / 2;
    var maxMag := 0.0;
    maxIndex := 0;
    var i := 0;
    while i < half
      invariant 0 <= i <= half
      invariant maxIndex == 0 || maxIndex < i
      invariant i == 0 ==> maxMag == 0.0
      invariant i > 0 ==> maxMag == ModulusSq(spectrum[maxIndex])
      invariant forall j :: 0 <= j < i ==> ModulusSq(spectrum[j]) <= maxMag
      invariant forall j :: 0 <= j < maxIndex ==> ModulusSq(spectrum[j]) < maxMag
    {
      var magnitude := ModulusSq(spectrum[i]);
      if magnitude > maxMag {
        maxMag := magnitude;
        maxIndex := i;
      }
      i := i + 1;
    }
  }

  /** A bin below `n/2` of an `n`-sample window lies below half the sample rate. */
  lemma BinBelowNyquist(i: nat, n: nat, sampleRate: real)
    requires 2 * i < n && sampleRate > 0.0
    ensures 0.0 <= i as real * sampleRate / n as real < sampleRate / 2.0
  {
    var x := i as real * sampleRate;
    assert 0.0 <= x;
    assert 2.0 * x < n as real * sampleRate;
    assert x / n as real < sampleRate / 2.0 by {
      assert x == (x / n as real) * n as real;
    }
  }

  /**
   The whole extractor. An empty window is excluded because the transform never returns
   on it, and a zero window size because the quotient is then not a real number.
   */
  method CalculateDominantFrequencyBin(w: Twiddle, samples: seq<Complex>, sampleRate: real, windowSize: real)
    returns (frequency: real)
    requires |samples| >= 1
    requires windowSize != 0.0
    ensures exists i: nat :: IsDominantBin(Transform(w, samples), i) && frequency == i as real * sampleRate / windowSize
    ensures |samples| == 1 ==> frequency == 0.0
    ensures AllZero(samples) ==> frequency == 0.0
    ensures windowSize == |samples| as real && sampleRate > 0.0 ==> 0.0 <= frequency < sampleRate / 2.0
  {
    var transformed := ComputeFft(w, samples);
    var maxIndex := DominantBinIndex(transformed);
    if |samples| == 1 {
      assert |transformed| / 2 == 0;
      assert maxIndex == 0;
    }
    if AllZero(samples) {
      FftLinearity.SilentWindowSilentSpectrum(w, samples);
      SilenceSelectsBinZero(transformed, maxIndex);
    }
    frequency := maxIndex as real * sampleRate / windowSize;
    assert maxIndex == 0 ==> frequency == 0.0;
    if windowSize == |samples| as real && sampleRate > 0.0 {
      BinBelowNyquist(maxIndex, |samples|, sampleRate);
    }
  }
}
