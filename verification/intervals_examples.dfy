/** The expected results and rejections of interval construction for the
    argument arrays of the repository's unit tests. */
module IntervalsExamples {
  import opened Diatonic
  import opened IntervalTables
  import opened NoteCodec
  import opened Intervals

  /** A construction result assembled from its parts: the start note read as
      a spelled note, the interval's table entries, the transposed note and
      its name. */
  lemma ConstructionFromParts(interval: string, startNote: string, order: string, step: int,
                              n: SpelledNote, m: SpelledNote, expected: string)
    requires IsIntervalName(interval) && MatchesStartNotePattern(startNote)
    requires (order == Ascending && step == 1) || (order == Descending && step == -1)
    requires Read(startNote) == n && IsSpelled(n)
    requires Transpose(n, step, IntervalDegrees[interval], IntervalSemitones[interval]) == m
    requires Render(m) == expected
    ensures IntervalConstruction([interval, startNote, order]) == Success(expected)
  {
    ConstructionIsTranspose(interval, startNote, order);
  }

  lemma MajorSecondUpFromC()
    ensures IntervalConstruction(["M2", "C", "asc"]) == Success("D")
  {
    assert IsIntervalName("M2") && IntervalDegrees["M2"] == 2 && IntervalSemitones["M2"] == 2;
    assert MatchesStartNotePattern("C");
    assert Read("C") == SpelledNote(0, 0);
    assert Render(SpelledNote(1, 0)) == "D";
    ConstructionFromParts("M2", "C", "asc", 1, SpelledNote(0, 0), SpelledNote(1, 0), "D");
  }

  lemma PerfectFifthUpFromB()
    ensures IntervalConstruction(["P5", "B", "asc"]) == Success("F#")
  {
    assert IsIntervalName("P5") && IntervalDegrees["P5"] == 5 && IntervalSemitones["P5"] == 7;
    assert MatchesStartNotePattern("B");
    assert Read("B") == SpelledNote(6, 0);
    assert Render(SpelledNote(3, 1)) == "F#";
    ConstructionFromParts("P5", "B", "asc", 1, SpelledNote(6, 0), SpelledNote(3, 1), "F#");
  }

  lemma MinorSecondDownFromBFlat()
    ensures IntervalConstruction(["m2", "Bb", "dsc"]) == Success("A")
  {
    assert IsIntervalName("m2") && IntervalDegrees["m2"] == 2 && IntervalSemitones["m2"] == 1;
    assert MatchesStartNotePattern("Bb");
    assert Read("Bb") == SpelledNote(6, -1);
    assert Render(SpelledNote(5, 0)) == "A";
    ConstructionFromParts("m2", "Bb", "dsc", -1, SpelledNote(6, -1), SpelledNote(5, 0), "A");
  }

  lemma MajorThirdDownFromCFlat()
    ensures IntervalConstruction(["M3", "Cb", "dsc"]) == Success("Abb")
  {
    assert IsIntervalName("M3") && IntervalDegrees["M3"] == 3 && IntervalSemitones["M3"] == 4;
    assert MatchesStartNotePattern("Cb");
    assert Read("Cb") == SpelledNote(0, -1);
    assert Render(SpelledNote(5, -2)) == "Abb";
    ConstructionFromParts("M3", "Cb", "dsc", -1, SpelledNote(0, -1), SpelledNote(5, -2), "Abb");
  }

  lemma PerfectFourthDownFromGSharp()
    ensures IntervalConstruction(["P4", "G#", "dsc"]) == Success("D#")
  {
    assert IsIntervalName("P4") && IntervalDegrees["P4"] == 4 && IntervalSemitones["P4"] == 5;
    assert MatchesStartNotePattern("G#");
    assert Read("G#") == SpelledNote(4, 1);
    assert Render(SpelledNote(1, 1)) == "D#";
    ConstructionFromParts("P4", "G#", "dsc", -1, SpelledNote(4, 1), SpelledNote(1, 1), "D#");
  }

  lemma MinorThirdDownFromB()
    ensures IntervalConstruction(["m3", "B", "dsc"]) == Success("G#")
  {
    assert IsIntervalName("m3") && IntervalDegrees["m3"] == 3 && IntervalSemitones["m3"] == 3;
    assert MatchesStartNotePattern("B");
    assert Read("B") == SpelledNote(6, 0);
    assert Render(SpelledNote(4, 1)) == "G#";
    ConstructionFromParts("m3", "B", "dsc", -1, SpelledNote(6, 0), SpelledNote(4, 1), "G#");
  }

  lemma MinorSecondUpFromFFlat()
    ensures IntervalConstruction(["m2", "Fb", "asc"]) == Success("Gbb")
  {
    assert IsIntervalName("m2") && IntervalDegrees["m2"] == 2 && IntervalSemitones["m2"] == 1;
    assert MatchesStartNotePattern("Fb");
    assert Read("Fb") == SpelledNote(3, -1);
    assert Render(SpelledNote(4, -2)) == "Gbb";
    ConstructionFromParts("m2", "Fb", "asc", 1, SpelledNote(3, -1), SpelledNote(4, -2), "Gbb");
  }

  lemma MajorSecondDownFromESharp()
    ensures IntervalConstruction(["M2", "E#", "dsc"]) == Success("D#")
  {
    assert IsIntervalName("M2") && IntervalDegrees["M2"] == 2 && IntervalSemitones["M2"] == 2;
    assert MatchesStartNotePattern("E#");
    assert Read("E#") == SpelledNote(2, 1);
    assert Render(SpelledNote(1, 1)) == "D#";
    ConstructionFromParts("M2", "E#", "dsc", -1, SpelledNote(2, 1), SpelledNote(1, 1), "D#");
  }

  lemma PerfectFourthDownFromE()
    ensures IntervalConstruction(["P4", "E", "dsc"]) == Success("B")
  {
    assert IsIntervalName("P4") && IntervalDegrees["P4"] == 4 && IntervalSemitones["P4"] == 5;
    assert MatchesStartNotePattern("E");
    assert Read("E") == SpelledNote(2, 0);
    assert Render(SpelledNote(6, 0)) == "B";
    ConstructionFromParts("P4", "E", "dsc", -1, SpelledNote(2, 0), SpelledNote(6, 0), "B");
  }

  lemma MinorSecondUpFromDSharp()
    ensures IntervalConstruction(["m2", "D#", "asc"]) == Success("E")
  {
    assert IsIntervalName("m2") && IntervalDegrees["m2"] == 2 && IntervalSemitones["m2"] == 1;
    assert MatchesStartNotePattern("D#");
    assert Read("D#") == SpelledNote(1, 1);
    assert Render(SpelledNote(2, 0)) == "E";
    ConstructionFromParts("m2", "D#", "asc", 1, SpelledNote(1, 1), SpelledNote(2, 0), "E");
  }

  lemma MajorSeventhUpFromG()
    ensures IntervalConstruction(["M7", "G", "asc"]) == Success("F#")
  {
    assert IsIntervalName("M7") && IntervalDegrees["M7"] == 7 && IntervalSemitones["M7"] == 11;
    assert MatchesStartNotePattern("G");
    assert Read("G") == SpelledNote(4, 0);
    assert Render(SpelledNote(3, 1)) == "F#";
    ConstructionFromParts("M7", "G", "asc", 1, SpelledNote(4, 0), SpelledNote(3, 1), "F#");
  }

  lemma TooFewArguments()
    ensures IntervalConstruction(["M2"]) == Failure(IllegalArgumentCount)
  {
  }

  lemma TooManyArguments()
    ensures IntervalConstruction(["M2", "C", "asc", "abc"]) == Failure(IllegalArgumentCount)
  {
  }

  lemma UnknownInterval()
    ensures IntervalConstruction(["Interval", "C", "asc"]) == Failure(InvalidInterval)
  {
    assert !IsIntervalName("Interval");
  }

  lemma MalformedStartNote()
    ensures IntervalConstruction(["M2", "err", "asc"]) == Failure(InvalidStartNote)
  {
    assert !MatchesStartNotePattern("err");
  }

  lemma UnknownOrder()
    ensures IntervalConstruction(["M2", "C", "abc"]) == Failure(InvalidOrder)
  {
    assert OrderOf(["M2", "C", "abc"]) == "abc";
  }
}
