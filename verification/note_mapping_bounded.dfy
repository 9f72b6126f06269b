/**
 The note mapper with its boundary cases handled, as the tuner display evidently intends:
 a missing neighbour of the first or last note is replaced by the centre note itself, and
 the offset is clamped to the nine displayed positions `0..8`. Where the mapper as
 written succeeds with an offset inside `0..8` the two agree.
 */
module BoundedNoteMapping {
  import opened Results
  import opened NoteMapping

  /** A non-zero frequency cannot be placed on a table of fewer than two notes. */
  datatype MapError = TooFewNotes

  function Clamp(x: int, lo: int, hi: int): (y: int)
    requires lo <= hi
    ensures lo <= y <= hi
    ensures lo <= x <= hi ==> y == x
  {
    if x < lo then lo else if x > hi then hi else x
  }

  function MapNote(f: real, notes: seq<Note>): (r: Result<Reading, MapError>)
    requires StrictlyAscending(notes)
    ensures f == 0.0 ==> r == Success(Silent)
    ensures r.Failure? <==> f != 0.0 && |notes| < 2
    ensures r.Success? ==> 0 <= r.value.rateIndex < StepCount
    ensures r.Success? && f != 0.0 ==> r.value.center == notes[ClosestIndex(f, notes)].name
    ensures r.Success? && f != 0.0 ==>
      var c := ClosestIndex(f, notes);
      var l := if c == 0 then c else c - 1;
      var h := if c == |notes| - 1 then c else c + 1;
      && r.value.left == notes[l].name
      && r.value.right == notes[h].name
      && r.value.rateIndex == Clamp(RateIndex(f, notes[l].frequency, notes[c].frequency, notes[h].frequency), 0, StepCount - 1)
  {
    if f == 0.0 then Success(Silent)
    else if |notes| < 2 then Failure(TooFewNotes)
    else
      var c := ClosestIndex(f, notes);
      var l := if c == 0 then c else c - 1;
      var r := if c == |notes| - 1 then c else c + 1;
      Success(Reading(notes[l].name, notes[c].name, notes[r].name,
                      Clamp(RateIndex(f, notes[l].frequency, notes[c].frequency, notes[r].frequency), 0, StepCount - 1)))
  }

  /** Wherever the mapper as written returns an offset on the display, both give the same reading. */
  lemma MapNoteAgreesWithHandleFrequency(f: real, notes: seq<Note>)
    requires StrictlyAscending(notes)
    requires HandleFrequency(f, notes).Success? && HandleFrequency(f, notes).value.rateIndex < StepCount
    ensures MapNote(f, notes) == Success(HandleFrequency(f, notes).value)
  {
    if f != 0.0 {
      RateIndexOfReading(f, notes);
    }
  }

  /** Where the mapper as written reaches offset 9 this one shows the last position, 8. */
  lemma MapNoteClampsNine(f: real, notes: seq<Note>)
    requires StrictlyAscending(notes)
    ensures HandleFrequency(f, notes).Success? && HandleFrequency(f, notes).value.rateIndex == StepCount
      ==> MapNote(f, notes) == Success(HandleFrequency(f, notes).value.(rateIndex := StepCount - 1))
  {
    if f != 0.0 && HandleFrequency(f, notes).Success? {
      RateIndexOfReading(f, notes);
    }
  }

  /** Below the lowest note the left neighbour falls back to the centre and the offset to 0. */
  lemma BelowLowestNoteReading()
    ensures MapNote(50.0, ExampleTable) == Success(Reading("A", "A", "B", 0))
  {
    var c := ClosestIndex(50.0, ExampleTable);
    ClosestBetweenMidpoints(50.0, ExampleTable, c);
    assert c == 0;
    assert RateIndex(50.0, 100.0, 100.0, 200.0) == -9;
  }

  /** At the upper midpoint the offset is clamped to the last displayed position. */
  lemma UpperMidpointReading()
    ensures MapNote(250.0, ExampleTable) == Success(Reading("A", "B", "C", 8))
  {
    UpperMidpointGivesNine();
    MapNoteClampsNine(250.0, ExampleTable);
  }
}
