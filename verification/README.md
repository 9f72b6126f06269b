# Lotus tuner pitch core, modelled in Dafny

Lotus is a terminal guitar tuner. Each audio buffer passes through a pitch-analysis path
of three pure functions in `main.go`:

- `FFT` is a recursive radix-2 transform of the sample window.
- `CalculateDominantFrequencyBin` transforms the window, scans the lower half of the
  spectrum for the bin of largest magnitude and converts that bin to Hz.
- `HandleFrequency` finds the note of the table nearest to that frequency. It returns the
  note's two neighbours and a `rateIndex` that places the frequency on a nine-position
  display between them.

This project models those three functions over idealised numbers. `float64` becomes `real`,
and `complex128` becomes a pair of reals (`ComplexArith.Complex`). The twiddle factor
`cmplx.Rect(1, -2πk/n)` becomes a parameter `w: (nat, nat) -> Complex`, so every fact
about the transform holds for every twiddle. Magnitudes are compared as squared moduli.
The square root is strictly increasing, so those comparisons pick the same bins. The note
table is a parameter (`seq<Note>`) instead of the global `Notes`.

Files:

- `complex.dfy`: complex numbers and pointwise sequence operations.
- `results.dfy`: a success-or-failure result type.
- `fft.dfy`: the transform as written, as a recursive function and as the slice-and-loop
  procedure of the source.
- `fft_reference.dfy`: the textbook recursion and how the transform as written relates
  to it.
- `fft_linearity.dfy`: linearity of the transform.
- `dominant.dfy`: the dominant-bin scan and the frequency extractor.
- `notes.dfy`: `HandleFrequency` as written. A Go index panic becomes
  `Failure(IndexOutOfRange(i))`.
- `note_mapping_bounded.dfy`: the note mapper with its boundary cases handled (see
  Findings).

Notable facts that were proved:

- The source hands the odd-indexed samples to the slice named `Xeven` and the
  even-indexed ones to `Xodd`. For every power-of-two length the transform as written
  therefore equals the textbook transform of the time-reversed window
  (`FftReference.TransformIsTextbookOfReversed`).
- Only an empty window makes the transform recurse forever. For an odd length above one
  the source drops the last sample and leaves the last bin at `0+0i`. The model follows
  the code here: the source accepts lengths that are not powers of two and never reports
  an error for them.
- `HandleFrequency` panics exactly when the frequency is non-zero and one of these holds:
  the table has fewer than three notes, the frequency is at or below the midpoint of the
  two lowest notes, or it is above the midpoint of the two highest notes.
- `rateIndex` is unclamped and reaches 9 exactly at the midpoint of the centre and right
  notes.
- A frequency equal to a table note lands on position 4 only when the centre note lies
  between 4/9 and 5/9 of the way from the left note to the right one
  (`NoteMapping.RateIndexAtCentreNote`).

## Model

| member | source | states |
|---|---|---|
| `ComplexArith.ModulusSq` | main.go:236 | the squared magnitude is non-negative, and it is zero for `0+0i` |
| `Fft.Transform` | main.go:247-291 | for every non-empty window the transform returns exactly as many bins as samples; the empty window is excluded because the source never returns on it |
| `Fft.SingleSampleIsFixed` | main.go:252-254 | a one-sample window is returned unchanged |
| `Fft.CombineEquations` | main.go:277-288 | bin `k` below `n/2` is `Feven[k] + w(k,n)·Fodd[k]` and bin `k + n/2` is `Feven[k] − w(k,n)·Fodd[k]`; for even `n` these two equations cover every bin, each exactly once; for odd `n` the last bin is zero |
| `Fft.HalvesArePowersOfTwo` | main.go:258-262 | a power-of-two length above one is even, and both halves have power-of-two length `n/2` |
| `Fft.SplitSamples` | main.go:261-268 | the copy loop puts `samples[2i+1]` into `Xeven` and `samples[2i]` into `Xodd`, each of length `n/2` |
| `Fft.Butterflies` | main.go:277-288 | the loop running while `k != n/2` over a zeroed slice produces exactly the combined bins |
| `Fft.ComputeFft` | main.go:247-291 | the slice-and-loop procedure computes the same bins as the recursive definition for every non-empty window |
| `FftReference.SplitInterleaveRoundTrip` | main.go:265-268 | interleaving the two halves gives back the window, minus its last sample when the length is odd |
| `FftReference.SplitOfReverse` | main.go:265-268 | on an even-length window, splitting the reversed window gives the reversed halves, swapped |
| `FftReference.TransformIsTextbookOfReversed` | main.go:247-291 | for every power-of-two length and every twiddle, the transform as written equals the textbook transform of the time-reversed window |
| `FftReference.TwoPointImpulse` | main.go:266-287 | with `w(0,2) = 1` the impulse `[1, 0]` gives `[1, −1]` as written and `[1, 1]` in textbook order, so the swap is observable |
| `FftLinearity.TransformAdditive` | main.go:247-291 | the transform of a pointwise sum is the sum of the transforms |
| `FftLinearity.TransformHomogeneous` | main.go:247-291 | the transform of a window scaled by a complex `a` is the transform scaled by `a` |
| `FftLinearity.TransformLinear` | main.go:247-291 | `transform(a·x + b·y) = a·transform(x) + b·transform(y)` |
| `FftLinearity.SilentWindowSilentSpectrum` | main.go:247-291 | an all-zero window has an all-zero spectrum |
| `DominantFrequency.DominantBinIndex` | main.go:233-241 | the scan returns a lower-half bin (0 if the lower half is empty) of maximal magnitude, and every earlier bin has strictly smaller magnitude |
| `DominantFrequency.DominantBinUnique` | main.go:233-241 | exactly one bin meets that description, so the strict `>` fixes the choice |
| `DominantFrequency.SilenceSelectsBinZero` | main.go:233-241 | if every lower-half bin has magnitude zero the chosen bin is 0 |
| `DominantFrequency.BinBelowNyquist` | main.go:235-244 | a bin below `n/2` converts to a frequency in `[0, sampleRate/2)` |
| `DominantFrequency.CalculateDominantFrequencyBin` | main.go:228-245 | the result is `maxIndex·sampleRate/windowSize` for the unique dominant bin of the transform; a one-sample window or a silent window gives 0.0; with `windowSize = n` the result lies below half the sample rate |
| `NoteMapping.ScanClosest` | main.go:209-214 | the scan returns a nearest note, and every earlier note is strictly farther |
| `NoteMapping.ClosestIndex` | main.go:209-215 | on a non-empty table the centre index is the first minimiser of `abs(f − frequency)`; it is 0 on an empty table |
| `NoteMapping.HandleFrequency` | main.go:201-226 | 0 Hz gives `("", "", "", 0)`; otherwise the call succeeds iff the centre index `c` is neither first nor last; a fault names an out-of-range index; a reading names notes `c − 1`, `c` (the nearest note) and `c + 1`, and its offset is the unclamped offset formula over those three notes |
| `NoteMapping.ClosestBetweenMidpoints` | main.go:209-215 | on an ascending table the nearest note lies strictly above the midpoint with its lower neighbour and at or below the midpoint with its upper one |
| `NoteMapping.ExactNoteIsCentre` | main.go:209-215 | a frequency equal to a table entry selects that entry as centre |
| `NoteMapping.FaultsExactlyAtTableEnds` | main.go:215-225 | a non-zero frequency faults iff the table has fewer than 3 notes, or it is at or below the lowest midpoint, or above the highest midpoint |
| `NoteMapping.RateIndexBounds` | main.go:219-223 | between the left midpoint (exclusive) and the right midpoint (inclusive), the offset is in `0..9`; it is 9 exactly at the right midpoint |
| `NoteMapping.RateIndexMonotone` | main.go:219-223 | for fixed notes with left below right, the offset never decreases as the frequency rises |
| `NoteMapping.RateIndexAtCentreNote` | main.go:219-223 | at the centre note's own frequency the offset is 4 iff the centre lies between 4/9 and 5/9 of the left-to-right span |
| `NoteMapping.RateIndexOfReading` | main.go:215-225 | every successful non-zero reading has offset in `0..9`, and the offset is 9 iff the frequency is the midpoint of the centre and right notes |
| `NoteMapping.BelowLowestNoteFaults` | main.go:216-221 | 50 Hz on a 100/200/300 Hz table reads index −1 |
| `NoteMapping.UpperMidpointGivesNine` | main.go:219-225 | 250 Hz on a 100/200/300 Hz table gives offset 9 |
| `BoundedNoteMapping.MapNote` | main.go:201-226 | the corrected mapper: 0 Hz is silent; it fails only for a non-zero frequency on a table of fewer than two notes; the centre is the nearest note; a missing left or right neighbour falls back to the centre note; the offset is the offset formula over those notes clamped to `0..8` |
| `BoundedNoteMapping.MapNoteAgreesWithHandleFrequency` | main.go:201-226 | wherever the source succeeds with an offset in `0..8`, the corrected mapper returns the same reading |
| `BoundedNoteMapping.MapNoteClampsNine` | main.go:222-225 | where the source gives offset 9, the corrected mapper gives the same reading with offset 8 |
| `BoundedNoteMapping.BelowLowestNoteReading` | main.go:215-225 | 50 Hz on a 100/200/300 Hz table gives `("A", "A", "B", 0)`: the missing left neighbour falls back to the centre |
| `BoundedNoteMapping.UpperMidpointReading` | main.go:219-225 | 250 Hz on a 100/200/300 Hz table gives `("A", "B", "C", 8)` |

## Findings

| source | as written | input that shows it | evidently intended | confidence | as-written member | corrected member |
|---|---|---|---|---|---|---|
| main.go:215-221 | the neighbours `Notes[c-1]` and `Notes[c+1]` are read without a bounds check, so the call panics when the nearest note is the first or last | any non-zero frequency at or below the midpoint of the two lowest notes, e.g. 50 Hz on a 100/200/300 Hz table | a defined reading at the ends of the table | high, not executed | `NoteMapping.BelowLowestNoteFaults` | `BoundedNoteMapping.MapNote` |
| main.go:222-225 | `rateIndex` is not clamped and equals 9, one past the last of the nine display positions, when the frequency is exactly the midpoint of the centre and right notes | 250 Hz on a 100/200/300 Hz table | an offset in `0..8` | medium (float rounding may move the exact midpoint), not executed | `NoteMapping.UpperMidpointGivesNine` | `BoundedNoteMapping.MapNote` |

## Left out

- `Fft.Transform`: requires a non-empty window, because on an empty slice main.go:247-254 recurses forever. The only caller passes `framesPerBuffer = 2048` samples (main.go:169), so this never happens in the program.
- `CreateStream` (main.go:172-199): PortAudio device I/O and the `float32` to `complex128` conversion in the sample callback.
- `main` and the channel relay (main.go:125-164): concurrency plumbing.
- `Init`, `Update`, `View` and the lipgloss styles (main.go:15-122): terminal presentation.
- `InitializeNotes` and the contents of the global `Notes` table are not part of this model. The table is a parameter.
- Concrete values of `cmplx.Rect`, `math.Sqrt` and `float64` rounding: the twiddle is a parameter, and magnitudes are squared moduli.
- Equality with the textbook DFT, Parseval's identity and peaks of bin-aligned sinusoids: each needs concrete twiddle values (roots of unity), which the model leaves abstract.
- `CalculateDominantFrequencyBin`: requires `windowSize != 0`. Go's float division would give `+Inf` or `NaN` there, and `real` has neither.
- `HandleFrequency`: requires a strictly ascending table, which the source assumes but never checks. A table whose neighbour frequencies coincide would make the source divide by zero.
- `HandleFrequency`: Go's `int()` of a floored `float64` outside the `int64` range is implementation-defined. The model keeps the unbounded integer.
