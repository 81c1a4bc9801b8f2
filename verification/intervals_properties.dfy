/** What interval construction promises on valid arguments: the end letter,
    the end pitch, the size of the end accidental, the octave identity and
    the inverse relation between the two orders. */
module IntervalProperties {
  import opened Diatonic
  import opened IntervalTables
  import opened NoteCodec
  import opened Intervals

  /** Arguments the construction accepts. */
  predicate ValidArguments(interval: string, startNote: string, order: string) {
    IsIntervalName(interval) && MatchesStartNotePattern(startNote) && (order == Ascending || order == Descending)
  }

  /** Semitones of a note name above the C of its letter's octave. */
  function PitchOf(note: string): int
    requires |note| >= 1 && IsNoteLetter(note[0])
  {
    Pitch(Read(note))
  }

  /** The construction on valid arguments, as a transposition. */
  lemma Construction(interval: string, startNote: string, order: string)
    requires ValidArguments(interval, startNote, order)
    ensures 2 <= IntervalDegrees[interval] <= 8 && 1 <= IntervalSemitones[interval] <= 12
    ensures IsSpelled(Read(startNote)) && -1 <= Read(startNote).accidental <= 1
    ensures IntervalConstruction([interval, startNote, order])
            == Success(Render(Transpose(Read(startNote), OrderStep[order], IntervalDegrees[interval], IntervalSemitones[interval])))
  {
    TableShapes(interval);
    StartSemitoneOfPattern(startNote);
    ConstructionIsTranspose(interval, startNote, order);
  }

  /** The end note's letter is `degree - 1` letters from the start letter,
      counted up for ascending and down for descending order. */
  lemma ConstructionLetter(interval: string, startNote: string, order: string)
    requires ValidArguments(interval, startNote, order)
    ensures var r := IntervalConstruction([interval, startNote, order]);
            var t := Moved(LetterIndex(startNote[0]), OrderStep[order], IntervalDegrees[interval] - 1);
            r.Success? && |r.value| >= 1 && r.value[0] == LetterOrder[t % LetterCount]
  {
    Construction(interval, startNote, order);
    var m := Transpose(Read(startNote), OrderStep[order], IntervalDegrees[interval], IntervalSemitones[interval]);
    ReadRender(m);
    LetterIndexOfOrder(m.letter);
  }

  /** The end note lies the interval's semitones above (ascending) or below
      (descending) the start note, once the octaves the letter walked past
      are counted. */
  lemma ConstructionPitch(interval: string, startNote: string, order: string)
    requires ValidArguments(interval, startNote, order)
    ensures var r := IntervalConstruction([interval, startNote, order]);
            var t := Moved(LetterIndex(startNote[0]), OrderStep[order], IntervalDegrees[interval] - 1);
            var expected := Moved(PitchOf(startNote), OrderStep[order], IntervalSemitones[interval]);
            && r.Success? && |r.value| >= 1 && IsNoteLetter(r.value[0])
            && PitchOf(r.value) + OctaveSemitones * (t / LetterCount) == expected
  {
    Construction(interval, startNote, order);
    var n := Read(startNote);
    var m := Transpose(n, OrderStep[order], IntervalDegrees[interval], IntervalSemitones[interval]);
    var r := Render(m);
    ReadRender(m);
    assert PitchOf(r) == Pitch(m) && PitchOf(startNote) == Pitch(n);
    TransposePitch(n, OrderStep[order], IntervalDegrees[interval], IntervalSemitones[interval]);
  }

  /** As pitch classes, the end note is the start note moved by the
      interval's semitones. */
  lemma ConstructionPitchClass(interval: string, startNote: string, order: string)
    requires ValidArguments(interval, startNote, order)
    ensures var r := IntervalConstruction([interval, startNote, order]);
            && r.Success? && |r.value| >= 1 && IsNoteLetter(r.value[0])
            && PitchClass(PitchOf(r.value)) == PitchClass(Moved(PitchOf(startNote), OrderStep[order], IntervalSemitones[interval]))
  {
    ConstructionPitch(interval, startNote, order);
    var r := IntervalConstruction([interval, startNote, order]);
    var t := Moved(LetterIndex(startNote[0]), OrderStep[order], IntervalDegrees[interval] - 1);
    SamePitchClass(PitchOf(r.value), Moved(PitchOf(startNote), OrderStep[order], IntervalSemitones[interval]), t / LetterCount);
  }

  /** The semitones spanned by `degree - 1` natural letters going up from
      any letter, for each degree of the interval table. */
  lemma UpSpanRange(p: seq<int>, i: int, degree: int)
    requires |p| == LetterCount
    requires p[0] == 0 && p[1] == 2 && p[2] == 4 && p[3] == 5 && p[4] == 7 && p[5] == 9 && p[6] == 11
    requires 0 <= i < LetterCount && 2 <= degree <= 8
    ensures degree == 2 ==> 1 <= SpanIn(p, i, degree, 1) <= 2
    ensures degree == 3 ==> 3 <= SpanIn(p, i, degree, 1) <= 4
    ensures degree == 4 ==> 5 <= SpanIn(p, i, degree, 1) <= 6
    ensures degree == 5 ==> 6 <= SpanIn(p, i, degree, 1) <= 7
    ensures degree == 6 ==> 8 <= SpanIn(p, i, degree, 1) <= 9
    ensures degree == 7 ==> 10 <= SpanIn(p, i, degree, 1) <= 11
    ensures degree == 8 ==> SpanIn(p, i, degree, 1) == 12
  {
    var t := i + (degree - 1);
    if t < LetterCount {
      DivModOf(t, 0, t);
      NaturalGaps(p, i, t);
    } else {
      DivModOf(t, 1, t - LetterCount);
      NaturalGaps(p, t - LetterCount, i);
    }
  }

  /** Between the natural letters `a` and `b` of one octave (a <= b) lie
      b - a letter steps of one or two semitones each, the two one-semitone
      steps being E-F and B-C. */
  lemma NaturalGaps(p: seq<int>, a: int, b: int)
    requires |p| == LetterCount
    requires p[0] == 0 && p[1] == 2 && p[2] == 4 && p[3] == 5 && p[4] == 7 && p[5] == 9 && p[6] == 11
    requires 0 <= a <= b < LetterCount
    ensures b - a == 1 ==> 1 <= p[b] - p[a] <= 2
    ensures b - a == 2 ==> 3 <= p[b] - p[a] <= 4
    ensures b - a == 3 ==> 5 <= p[b] - p[a] <= 6
    ensures b - a == 4 ==> 7 <= p[b] - p[a] <= 8
    ensures b - a == 5 ==> 8 <= p[b] - p[a] <= 9
    ensures b - a == 6 ==> p[b] - p[a] == 11
  {
  }

  /** Every interval of the table is within one semitone of the span of its
      natural letters, from any letter and in either direction. */
  lemma IntervalNearLetterSpan(interval: string, i: int, step: int)
    requires IsIntervalName(interval) && 0 <= i < LetterCount && (step == 1 || step == -1)
    ensures -1 <= IntervalSemitones[interval] - LetterSpan(i, IntervalDegrees[interval], step) <= 1
  {
    var degree := IntervalDegrees[interval];
    var p := NaturalPitches;
    TableShapes(interval);
    assert p[0] == 0 && p[1] == 2 && p[2] == 4 && p[3] == 5 && p[4] == 7 && p[5] == 9 && p[6] == 11;
    if step == 1 {
      UpSpanRange(p, i, degree);
    } else {
      SpanDownThenUp(p, i, degree);
      UpSpanRange(p, (i - (degree - 1)) % LetterCount, degree);
    }
  }

  /** The end note carries at most two accidentals. */
  lemma ConstructionAccidentalBound(interval: string, startNote: string, order: string)
    requires ValidArguments(interval, startNote, order)
    ensures var r := IntervalConstruction([interval, startNote, order]);
            r.Success? && -2 <= NoteSemitone(r.value) <= 2 && 1 <= |r.value| <= 3
  {
    Construction(interval, startNote, order);
    var n := Read(startNote);
    var m := Transpose(n, OrderStep[order], IntervalDegrees[interval], IntervalSemitones[interval]);
    ReadRender(m);
    IntervalNearLetterSpan(interval, n.letter, OrderStep[order]);
  }

  /** An octave up or down from a start note is the start note itself. */
  lemma OctaveIdentity(startNote: string, order: string)
    requires MatchesStartNotePattern(startNote) && (order == Ascending || order == Descending)
    ensures IntervalConstruction(["P8", startNote, order]) == Success(startNote)
  {
    TableShapes("P8");
    Construction("P8", startNote, order);
    TransposeOctave(Read(startNote), OrderStep[order]);
    RenderRead(startNote);
  }

  /** Constructing an interval descending from the ascending result gives
      back the start note, whenever that result is itself a valid start note
      (at most one accidental). */
  lemma AscendingThenDescending(interval: string, startNote: string)
    requires IsIntervalName(interval) && MatchesStartNotePattern(startNote)
    ensures var up := IntervalConstruction([interval, startNote, Ascending]);
            up.Success?
            && (MatchesStartNotePattern(up.value) ==> IntervalConstruction([interval, up.value, Descending]) == Success(startNote))
  {
    var degree, semitones := IntervalDegrees[interval], IntervalSemitones[interval];
    Construction(interval, startNote, Ascending);
    var n := Read(startNote);
    var m := Transpose(n, 1, degree, semitones);
    var up := Render(m);
    if MatchesStartNotePattern(up) {
      Construction(interval, up, Descending);
      ReadRender(m);
      TransposeUpThenDown(NaturalPitches, n, degree, semitones);
      RenderRead(startNote);
    }
  }

  /** Constructing an interval ascending from the descending result gives
      back the start note, whenever that result is itself a valid start note
      (at most one accidental). */
  lemma DescendingThenAscending(interval: string, startNote: string)
    requires IsIntervalName(interval) && MatchesStartNotePattern(startNote)
    ensures var down := IntervalConstruction([interval, startNote, Descending]);
            down.Success?
            && (MatchesStartNotePattern(down.value) ==> IntervalConstruction([interval, down.value, Ascending]) == Success(startNote))
  {
    var degree, semitones := IntervalDegrees[interval], IntervalSemitones[interval];
    Construction(interval, startNote, Descending);
    var n := Read(startNote);
    var m := Transpose(n, -1, degree, semitones);
    var down := Render(m);
    if MatchesStartNotePattern(down) {
      Construction(interval, down, Ascending);
      ReadRender(m);
      TransposeDownThenUp(NaturalPitches, n, degree, semitones);
      RenderRead(startNote);
    }
  }

  /** Leaving out the order is the same as asking for ascending order. */
  lemma DefaultOrder(args: seq<string>)
    requires |args| == 2
    ensures IntervalConstruction(args) == IntervalConstruction(args + [Ascending])
  {
    var full := args + [Ascending];
    assert full[0] == args[0] && full[1] == args[1] && OrderOf(full) == OrderOf(args);
  }
}
