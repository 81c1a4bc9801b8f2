/** Interval construction: from an interval name, a start note and an order
    (ascending or descending), the note that lies that interval away. */
module Intervals {
  import opened Diatonic
  import opened IntervalTables
  import opened NoteCodec
  import opened CircleWalk
  import opened NoteCircle

  /** Why an argument array is rejected, in the order the checks are made. */
  datatype ConstructionError = IllegalArgumentCount | InvalidOrder | InvalidStartNote | InvalidInterval

  datatype Result<T> = Success(value: T) | Failure(error: ConstructionError)

  /** The order argument: the third element when there is one, ascending
      otherwise. */
  function OrderOf(args: seq<string>): string
    requires 2 <= |args|
  {
    if |args| == 3 then args[2] else Ascending
  }

  /** Interval name, start note and optional order, checked in that order of
      precedence: number of elements, order, start note, interval. */
  function IntervalConstruction(args: seq<string>): (r: Result<string>)
    ensures r == Failure(IllegalArgumentCount) <==> |args| < 2 || 3 < |args|
    ensures r == Failure(InvalidOrder) <==>
              2 <= |args| <= 3 && OrderOf(args) != Ascending && OrderOf(args) != Descending
    ensures r == Failure(InvalidStartNote) <==>
              2 <= |args| <= 3 && (OrderOf(args) == Ascending || OrderOf(args) == Descending)
              && !MatchesStartNotePattern(args[1])
    ensures r == Failure(InvalidInterval) <==>
              2 <= |args| <= 3 && (OrderOf(args) == Ascending || OrderOf(args) == Descending)
              && MatchesStartNotePattern(args[1]) && !IsIntervalName(args[0])
    ensures r.Success? ==> |r.value| >= 1 && IsNoteLetter(r.value[0])
  {
    if |args| > 3 || |args| < 2 then Failure(IllegalArgumentCount)
    else
      var interval, startNote, order := args[0], args[1], OrderOf(args);
      TableShapes(order);
      TableShapes(interval);
      if order !in OrderStep then Failure(InvalidOrder)
      else if !MatchesStartNotePattern(startNote) then Failure(InvalidStartNote)
      else if interval !in IntervalDegrees || interval !in IntervalSemitones then Failure(InvalidInterval)
      else Success(EndNote(interval, startNote, order))
  }

  /** The construction proper, once the arguments are valid: look up the
      order's step and the interval's degree and semitones, then walk. */
  function EndNote(interval: string, startNote: string, order: string): (r: string)
    requires IsIntervalName(interval) && MatchesStartNotePattern(startNote) && order in OrderStep
    ensures |r| >= 1 && IsNoteLetter(r[0])
  {
    TableShapes(interval);
    TableShapes(order);
    assert startNote[..1] == [startNote[0]];
    WalkToEndNote(startNote[0], StartSemitone(startNote), order == Ascending, OrderStep[order],
                  IntervalDegrees[interval], IntervalSemitones[interval])
  }

  /** From the slot of the start letter, walk the circle until `degree`
      letters have been counted, then give the letter reached the accidental
      that makes up the interval's semitones. */
  function WalkToEndNote(letter: char, startSemitone: int, ascending: bool, step: int, degree: int, semitones: int): (r: string)
    requires IsNoteLetter(letter) && (step == 1 || step == -1) && (ascending <==> step == 1) && 1 <= degree
    ensures |r| >= 1 && IsNoteLetter(r[0])
  {
    SlotOfLetter(letter);
    NotesLayout();
    NotesIsCircle();
    var startPosition := IndexOf(Notes, [letter]);
    var w := Walk(Notes, startPosition, step, 0, 1, degree);
    LayoutLetter(Notes, w.position);
    NoteWithSemitones(Notes[w.position], EndSemitones(ascending, semitones, startSemitone, w.distance, degree))
  }

  /** The accidental of the end note: the slots walked, less the lettered
      ones, are the semitones the two natural letters already span; the
      accidental makes up the rest of the interval. */
  function EndSemitones(ascending: bool, semitones: int, startSemitone: int, notesDistance: int, degree: int): int {
    var distanceInSemitones := notesDistance - (degree - 1);
    if ascending then semitones + startSemitone - distanceInSemitones
    else distanceInSemitones - semitones + startSemitone
  }

  /** When the empty slots walked are the semitones spanned by the natural
      letters, the end accidental is the one of the transposed note. */
  lemma EndSemitonesAreAccidental(pitches: seq<int>, i: int, startSemitone: int, ascending: bool, step: int,
                                  degree: int, semitones: int, notesDistance: int)
    requires |pitches| == LetterCount && 0 <= i < LetterCount && (step == 1 || step == -1) && (ascending <==> step == 1)
    requires notesDistance - (degree - 1) == SpanIn(pitches, i, degree, step)
    ensures EndSemitones(ascending, semitones, startSemitone, notesDistance, degree)
            == TransposeIn(pitches, SpelledNote(i, startSemitone), step, degree, semitones).accidental
  {
  }

  /** A lettered slot of the circle holds the one-letter name of the
      letter whose index is the number of lettered slots before it. */
  lemma SlotName(x: int)
    requires 0 <= x < NoteCount && IsLettered(Notes, x)
    ensures CountBefore(Notes, x, false) < LetterCount
    ensures Notes[x] == [LetterOrder[CountBefore(Notes, x, false)]]
  {
    NotesLayout();
    LayoutLetter(Notes, x);
    assert Notes[x] == [Notes[x][0]];
  }

  /** The walk around the circle computes the musical definition of the
      end note: the start note transposed by the interval. */
  lemma WalkIsReference(letter: char, startSemitone: int, ascending: bool, step: int, degree: int, semitones: int)
    requires IsNoteLetter(letter) && (step == 1 || step == -1) && (ascending <==> step == 1) && 1 <= degree
    ensures WalkToEndNote(letter, startSemitone, ascending, step, degree, semitones)
            == Render(Transpose(SpelledNote(LetterIndex(letter), startSemitone), step, degree, semitones))
  {
    NotesIsCircle();
    WalkIsTransposeIn(NaturalPitches, letter, startSemitone, ascending, step, degree, semitones);
  }

  /** WalkIsReference for any pitch table that agrees with the circle. */
  lemma WalkIsTransposeIn(pitches: seq<int>, letter: char, startSemitone: int, ascending: bool, step: int, degree: int, semitones: int)
    requires PitchesMatch(Notes, pitches)
    requires IsNoteLetter(letter) && (step == 1 || step == -1) && (ascending <==> step == 1) && 1 <= degree
    ensures WalkToEndNote(letter, startSemitone, ascending, step, degree, semitones)
            == Render(TransposeIn(pitches, SpelledNote(LetterIndex(letter), startSemitone), step, degree, semitones))
  {
    SlotOfLetter(letter);
    NotesLayout();
    NotesIsCircle();
    var p := IndexOf(Notes, [letter]);
    LayoutLetter(Notes, p);
    var w := Walk(Notes, p, step, 0, 1, degree);
    WalkFromLetter(Notes, pitches, p, step, degree);
    SlotName(w.position);
    var i := LetterIndex(letter);
    assert Notes[p][0] == letter;
    EndSemitonesAreAccidental(pitches, i, startSemitone, ascending, step, degree, semitones, w.distance);
    var t := TransposeIn(pitches, SpelledNote(i, startSemitone), step, degree, semitones);
    assert t.letter == CountBefore(Notes, w.position, false);
    RenderOf(t, Notes[w.position], EndSemitones(ascending, semitones, startSemitone, w.distance, degree));
  }

  /** On valid arguments the construction succeeds with the start note
      transposed by the interval in the direction of the order. */
  lemma ConstructionIsTranspose(interval: string, startNote: string, order: string)
    requires IsIntervalName(interval) && MatchesStartNotePattern(startNote)
    requires order == Ascending || order == Descending
    ensures order in OrderStep && (OrderStep[order] == 1 <==> order == Ascending)
    ensures IntervalConstruction([interval, startNote, order])
            == Success(Render(Transpose(Read(startNote), OrderStep[order],
                                        IntervalDegrees[interval], IntervalSemitones[interval])))
  {
    TableShapes(order);
    TableShapes(interval);
    StartSemitoneOfPattern(startNote);
    WalkIsReference(startNote[0], StartSemitone(startNote), order == Ascending, OrderStep[order],
                    IntervalDegrees[interval], IntervalSemitones[interval]);
  }
}
