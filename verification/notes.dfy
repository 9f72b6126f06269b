/**
 The note mapper of main.go:201-226, as written: the nearest note of a table, its two
 neighbours, and the offset index that places the frequency between them.

 The table is a parameter instead of the global `Notes`, and is assumed sorted strictly
 ascending by frequency. A Go run-time panic on a bad slice index is modelled as a
 `Failure(IndexOutOfRange(i))` result.
 */
module NoteMapping {
  import opened Results

  datatype Note = Note(name: string, frequency: real)

  /** The four results of `HandleFrequency`: left, centre and right names and `rateIndex`. */
  datatype Reading = Reading(left: string, center: string, right: string, rateIndex: int)

  /** The index whose access panicked. */
  datatype Fault = IndexOutOfRange(index: int)

  /** The number of offset positions the tuner displays; the factor 9 of main.go:222. */
  const StepCount: int := 9

  /** The reading for "no signal": empty names and offset 0. */
  const Silent: Reading := Reading("", "", "", 0)

  predicate StrictlyAscending(notes: seq<Note>) {
    forall i, j :: 0 <= i < j < |notes| ==> notes[i].frequency < notes[j].frequency
  }

  function Abs(x: real): real {
    if x < 0.0 then -x else x
  }

  function Distance(f: real, n: Note): real {
    Abs(f - n.frequency)
  }

  function Midpoint(a: Note, b: Note): real {
    (a.frequency + b.frequency) / 2.0
  }

  /**
   `c` is a nearest note to `f`, and every note before it is strictly farther: the strict
   `<` in the scan keeps the first of several equally near notes.
   */
  predicate IsClosest(f: real, notes: seq<Note>, c: nat) {
    && c < |notes|
    && (forall j :: 0 <= j < |notes| ==> Distance(f, notes[c]) <= Distance(f, notes[j]))
    && (forall j :: 0 <= j < c ==> Distance(f, notes[c]) < Distance(f, notes[j]))
  }

  /**
   The scan of main.go:209-214 from index `i` on, `best` being the `closestIndex` found so
   far among the notes before `i`.
   */
  function ScanClosest(f: real, notes: seq<Note>, i: nat, best: nat): (c: nat)
    requires best < |notes| && best <= i <= |notes|
    requires forall j :: 0 <= j < i ==> Distance(f, notes[best]) <= Distance(f, notes[j])
    requires forall j :: 0 <= j < best ==> Distance(f, notes[best]) < Distance(f, notes[j])
    ensures IsClosest(f, notes, c)
    decreases |notes| - i
  {
    if i == |notes| then best
    else if Distance(f, notes[i]) < Distance(f, notes[best]) then ScanClosest(f, notes, i + 1, i)
    else ScanClosest(f, notes, i + 1, best)
  }

  /** The `closestIndex` of main.go:209-215; it stays 0 on an empty table. */
  function ClosestIndex(f: real, notes: seq<Note>): (c: nat)
    ensures |notes| > 0 ==> IsClosest(f, notes, c)
    ensures |notes| == 0 ==> c == 0
  {
    if |notes| == 0 then 0 else ScanClosest(f, notes, 0, 0)
  }

  /**
   The offset of main.go:220-223: the distance from the midpoint between the left and the
   centre note, in units of half the left-to-right span, times 9, rounded down. The
   result is not clamped.
   */
  function RateIndex(f: real, left: real, center: real, right: real): int
    requires left < right
  {
    var totalDistance := right - left;
    var distanceToLeft := f - (center - (center - left) / 2.0);
    ((distanceToLeft / (totalDistance / 2.0)) * StepCount as real).Floor
  }

  /**
   `HandleFrequency` as written. Zero is the "no signal" sentinel and never reads the table.
   Otherwise the neighbours of the nearest note are read at `c + 1` and `c - 1`. The nearest
   note being the last (or the table being empty) faults at `c + 1`, the nearest note being
   the first faults at `-1`. Go leaves open which of two bad indices on main.go:220 is
   evaluated first; when both are out of range (a table of one note) the model reports `c + 1`.
   */
  function HandleFrequency(f: real, notes: seq<Note>): (r: Result<Reading, Fault>)
    requires StrictlyAscending(notes)
    ensures f == 0.0 ==> r == Success(Silent)
    ensures f != 0.0 ==> (r.Success? <==> 0 < ClosestIndex(f, notes) < |notes| - 1)
    ensures r.Failure? ==> r.error.index < 0 || r.error.index >= |notes|
    ensures r.Success? && f != 0.0 ==> r.value.center == notes[ClosestIndex(f, notes)].name
    ensures r.Success? && f != 0.0 ==>
      var c := ClosestIndex(f, notes);
      && r.value.left == notes[c - 1].name
      && r.value.right == notes[c + 1].name
      && r.value.rateIndex == RateIndex(f, notes[c - 1].frequency, notes[c].frequency, notes[c + 1].frequency)
  {
    if f == 0.0 then Success(Silent)
    else
      var c := ClosestIndex(f, notes);
      if c + 1 >= |notes| then Failure(IndexOutOfRange(c + 1))
      else if c == 0 then Failure(IndexOutOfRange(-1))
      else
        Success(Reading(notes[c - 1].name, notes[c].name, notes[c + 1].name,
                        RateIndex(f, notes[c - 1].frequency, notes[c].frequency, notes[c + 1].frequency)))
  }

  /**
   On an ascending table the nearest note lies above the midpoint with its lower
   neighbour (ties go to the lower note) and at or below the midpoint with its upper one.
   */
  lemma ClosestBetweenMidpoints(f: real, notes: seq<Note>, c: nat)
    requires StrictlyAscending(notes) && IsClosest(f, notes, c)
    ensures 0 < c ==> f > Midpoint(notes[c - 1], notes[c])
    ensures c + 1 < |notes| ==> f <= Midpoint(notes[c], notes[c + 1])
  {
    if 0 < c {
      assert notes[c - 1].frequency < notes[c].frequency;
      assert Distance(f, notes[c]) < Distance(f, notes[c - 1]);
    }
    if c + 1 < |notes| {
      assert notes[c].frequency < notes[c + 1].frequency;
      assert Distance(f, notes[c]) <= Distance(f, notes[c + 1]);
    }
  }

  /** A frequency equal to a table entry selects that entry as the centre note. */
  lemma ExactNoteIsCentre(notes: seq<Note>, i: nat)
    requires StrictlyAscending(notes) && i < |notes|
    ensures ClosestIndex(notes[i].frequency, notes) == i
  {
    var f := notes[i].frequency;
    var c := ClosestIndex(f, notes);
    assert Distance(f, notes[i]) == 0.0;
    assert notes[c].frequency == f;
  }

  /**
   For a non-zero frequency `HandleFrequency` faults exactly when the table has fewer than
   three notes, or the frequency is at or below the midpoint of the two lowest notes, or
   above the midpoint of the two highest.
   */
  lemma FaultsExactlyAtTableEnds(f: real, notes: seq<Note>)
    requires StrictlyAscending(notes) && f != 0.0
    ensures HandleFrequency(f, notes).Failure? <==>
      || |notes| < 3
      || f <= Midpoint(notes[0], notes[1])
      || f > Midpoint(notes[|notes| - 2], notes[|notes| - 1])
  {
    var k := |notes|;
    if k >= 3 {
      var c := ClosestIndex(f, notes);
      ClosestBetweenMidpoints(f, notes, c);
      if 0 < c {
        assert notes[0].frequency <= notes[c - 1].frequency;
        assert notes[1].frequency <= notes[c].frequency;
      }
      if c + 1 < k {
        assert notes[c].frequency <= notes[k - 2].frequency;
        assert notes[c + 1].frequency <= notes[k - 1].frequency;
      }
    }
  }

  /** The quotient of `d` by a positive `h` in terms of `d` and `h`. */
  lemma QuotientFacts(d: real, h: real)
    requires h > 0.0
    ensures (d / h) * h == d
    ensures d / h > 0.0 <==> d > 0.0
    ensures d / h <= 1.0 <==> d <= h
    ensures d / h == 1.0 <==> d == h
  {
    var q := d / h;
    assert q * h == d;
    if q > 1.0 {
      assert q * h > 1.0 * h;
    } else if q < 1.0 {
      assert q * h < 1.0 * h;
    }
    if q > 0.0 {
      assert q * h > 0.0;
    } else if q < 0.0 {
      assert q * h < 0.0;
    }
  }

  /** Dividing by a positive span preserves order. */
  lemma QuotientMonotone(a: real, b: real, h: real)
    requires a <= b && h > 0.0
    ensures a / h <= b / h
  {
    QuotientFacts(b - a, h);
    assert (b - a) / h == b / h - a / h;
  }

  /**
   Between the midpoint with the left neighbour (exclusive) and the midpoint with the
   right neighbour (inclusive) the offset lies in `0..9`; it reaches 9, one past the last
   displayed position, exactly at the right midpoint.
   */
  lemma RateIndexBounds(f: real, l: real, c: real, r: real)
    requires l < c < r
    requires (l + c) / 2.0 < f <= (c + r) / 2.0
    ensures 0 <= RateIndex(f, l, c, r) <= StepCount
    ensures RateIndex(f, l, c, r) == StepCount <==> f == (c + r) / 2.0
  {
    var d := f - (c - (c - l) / 2.0);
    var h := (r - l) / 2.0;
    assert 0.0 < d <= h;
    QuotientFacts(d, h);
  }

  /** For fixed notes the offset never decreases as the frequency rises. */
  lemma RateIndexMonotone(f1: real, f2: real, l: real, c: real, r: real)
    requires l < r && f1 <= f2
    ensures RateIndex(f1, l, c, r) <= RateIndex(f2, l, c, r)
  {
    var h := (r - l) / 2.0;
    QuotientMonotone(f1 - (c - (c - l) / 2.0), f2 - (c - (c - l) / 2.0), h);
  }

  /**
   A frequency exactly on the centre note lands on the middle position 4 precisely when
   the centre sits between 4/9 and 5/9 of the way from the left to the right note.
   */
  lemma RateIndexAtCentreNote(l: real, c: real, r: real)
    requires l < c < r
    ensures RateIndex(c, l, c, r) == 4 <==> 4.0 * (r - l) <= 9.0 * (c - l) < 5.0 * (r - l)
  {
    var d := c - (c - (c - l) / 2.0);
    var h := (r - l) / 2.0;
    var q := d / h;
    QuotientFacts(d, h);
    assert q * h == d;
    assert 9.0 * (c - l) == (q * 9.0) * (r - l) by {
      assert c - l == 2.0 * d;
      assert r - l == 2.0 * h;
    }
    ScaleOrder(4.0, q * 9.0, r - l);
    ScaleOrder(q * 9.0, 5.0, r - l);
    var x := q * 9.0;
    assert RateIndex(c, l, c, r) == x.Floor;
    assert x.Floor == 4 <==> 4.0 <= x < 5.0;
  }

  /** Multiplying by a positive factor preserves and reflects order. */
  lemma ScaleOrder(a: real, b: real, p: real)
    requires p > 0.0
    ensures a <= b <==> a * p <= b * p
    ensures a < b <==> a * p < b * p
  {
    var d := b - a;
    var e := d * p;
    assert b * p - a * p == e;
    if d > 0.0 {
      assert e > 0.0;
    } else if d < 0.0 {
      assert e < 0.0;
    } else {
      assert e == 0.0;
    }
  }

  /**
   Whenever `HandleFrequency` succeeds on a non-zero frequency its offset is in `0..9`,
   and it is 9 exactly when the frequency is the midpoint of the centre and right notes.
   */
  lemma RateIndexOfReading(f: real, notes: seq<Note>)
    requires StrictlyAscending(notes) && f != 0.0 && HandleFrequency(f, notes).Success?
    ensures 0 <= HandleFrequency(f, notes).value.rateIndex <= StepCount
    ensures var c := ClosestIndex(f, notes);
      HandleFrequency(f, notes).value.rateIndex == StepCount <==> f == Midpoint(notes[c], notes[c + 1])
  {
    var c := ClosestIndex(f, notes);
    ClosestBetweenMidpoints(f, notes, c);
    assert notes[c - 1].frequency < notes[c].frequency < notes[c + 1].frequency;
    RateIndexBounds(f, notes[c - 1].frequency, notes[c].frequency, notes[c + 1].frequency);
  }

  /** A three-note table used by the two examples below. */
  const ExampleTable: seq<Note> := [Note("A", 100.0), Note("B", 200.0), Note("C", 300.0)]

  /** A frequency below the lowest note makes the source read index -1. */
  lemma BelowLowestNoteFaults()
    ensures HandleFrequency(50.0, ExampleTable) == Failure(IndexOutOfRange(-1))
  {
    var c := ClosestIndex(50.0, ExampleTable);
    ClosestBetweenMidpoints(50.0, ExampleTable, c);
  }

  /** The midpoint of the centre and right notes produces offset 9, outside `0..8`. */
  lemma UpperMidpointGivesNine()
    ensures HandleFrequency(250.0, ExampleTable) == Success(Reading("A", "B", "C", 9))
  {
    var c := ClosestIndex(250.0, ExampleTable);
    ClosestBetweenMidpoints(250.0, ExampleTable, c);
    assert c == 1;
    assert RateIndex(250.0, 100.0, 200.0, 300.0) == 9;
  }
}
