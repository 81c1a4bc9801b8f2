# Interval construction, modelled and proved in Dafny

The repository is a small music-theory calculator. Its one working
operation, `intervalConstruction`, takes an argument array `[interval,
startNote, order?]` and returns the note that lies that interval away from
the start note. The interval is one of `m2 M2 m3 M3 P4 P5 m6 M6 m7 M7 P8`.
The start note is a letter `A`–`G` with at most one `#` or `b`. The order is
`asc` (the default) or `dsc`.

The calculator works on a circle of 19 slots, `C--D--E-F--G--A--B-`. Each of
the seven natural letters has a lettered slot, and each semitone that has no
natural letter is an empty slot. Construction goes like this:

- Find the start letter's slot.
- Walk the circle one slot at a time, counting a degree on every lettered
  slot, until the interval's degree is reached.
- The slots walked, less the lettered ones counted, give the semitones
  between the two natural letters.
- The end note's accidental makes up the difference to the interval's
  semitones. For ascending order this is `semitones + start accidental −
  distance`; for descending order it is `distance − semitones + start
  accidental`.

`intervalIdentification` returns `null` and is not modelled.

Modules:

- `Diatonic`: a musical reference that never mentions the circle. Letters
  are indices into `CDEFGAB` and have natural pitches `0 2 4 5 7 9 11`. A
  `SpelledNote` is a letter plus a signed accidental. `Transpose` moves a
  note by `degree − 1` letters and corrects the accidental to make up the
  semitones.
- `IntervalTables`: the constant tables (semitones, degrees, order steps,
  the 19-slot circle) and `indexOf`.
- `NoteCodec`: the start-note pattern `^[A-G](#?|b?)$`, `countMatches`,
  `getNoteSemitone` and `getNoteWithSemitones`. `Render` and `Read` convert
  between names and spelled notes.
- `CircleWalk`: the walk loop, stated for any circle of 19 slots with 7
  lettered and 12 empty slots and no three empty slots in a row. Its
  lemmas count the slots of each kind a walk lands on.
- `NoteCircle`: the calculator's own circle meets those conditions, and its
  lettered slots sit at the natural pitches.
- `Intervals`: `IntervalConstruction` with its validation order, and the
  theorem that the walk computes `Render(Transpose(Read(startNote), ...))`.
- `IntervalProperties`: what construction promises on valid input. This
  covers the end letter, the end pitch (exactly, and modulo 12), at most two
  accidentals, the octave identity, the default order, and ascending and
  descending undoing each other.
- `IntervalsExamples`: the unit tests' argument arrays and their results.

Errors are values of `ConstructionError`, returned as `Failure(...)` where
the code throws `IllegalArgumentException`.

## Model

| member | source | states |
|---|---|---|
| IntervalTables.TableShapes | src/main/java/shgo/innowise/trainee/intervalstask/Intervals.java:41-77 | The two interval tables have the same eleven keys. Degrees lie in 2..8 and semitones in 1..12. The order table holds exactly `asc` (step 1) and `dsc` (step −1). |
| IntervalTables.IndexOf | src/main/java/shgo/innowise/trainee/intervalstask/Intervals.java:116 | The result is −1 exactly when the element is absent. Otherwise it is the first index holding the element. |
| IntervalTables.SlotOfLetter | src/main/java/shgo/innowise/trainee/intervalstask/Intervals.java:70-72 | Every letter A–G has a slot on the circle, and `indexOf` of its one-letter name finds it. |
| NoteCodec.CountMatches | src/main/java/shgo/innowise/trainee/intervalstask/Intervals.java:204-207 | The result equals the number of occurrences of the character in the string, as a multiset count. |
| NoteCodec.NoteSemitone | src/main/java/shgo/innowise/trainee/intervalstask/Intervals.java:187-195 | If the note contains a `#`, the result is the number of sharps (positive). Otherwise it is minus the number of lower-case `b`. |
| NoteCodec.StartSemitoneOfPattern | src/main/java/shgo/innowise/trainee/intervalstask/Intervals.java:118 | Specifies `StartSemitone`: for a note of the start-note pattern, skipping `getNoteSemitone` on a bare letter gives the same value. The value lies in −1..1. |
| NoteCodec.NoteWithSemitones | src/main/java/shgo/innowise/trainee/intervalstask/Intervals.java:173-177 | The result is the note followed by exactly \|semitones\| characters. They are all `b` for a negative offset and all `#` for a positive one. A zero offset leaves the note unchanged. |
| NoteCodec.AccidentalRoundTrip | src/main/java/shgo/innowise/trainee/intervalstask/Intervals.java:173-195 | `getNoteSemitone` reads back the offset that `getNoteWithSemitones` wrote, for any letter and any signed offset. |
| NoteCodec.StartNoteRoundTrip | src/main/java/shgo/innowise/trainee/intervalstask/Intervals.java:116-118 | A start note is its first letter rendered with its start semitone. |
| NoteCodec.RenderedStartNote | src/main/java/shgo/innowise/trainee/intervalstask/Intervals.java:30 | Specifies `MatchesStartNotePattern` (the pattern of line 30, applied at line 105) on rendered notes: a rendered note matches exactly when its offset lies in −1..1. |
| NoteCodec.Render | src/main/java/shgo/innowise/trainee/intervalstask/Intervals.java:173-177 | A spelled note is written as its letter followed by its accidentals, and the name starts with a letter A–G. |
| NoteCodec.ReadRender | src/main/java/shgo/innowise/trainee/intervalstask/Intervals.java:173-195 | Reading the name of a rendered spelled note gives back that spelled note. With RenderRead this specifies `Read`, the letter index and `getNoteSemitone` of a name. |
| NoteCodec.RenderRead | src/main/java/shgo/innowise/trainee/intervalstask/Intervals.java:30 | Rendering what a note matching `MatchesStartNotePattern` reads as gives back that note. |
| CircleWalk.Wrap | src/main/java/shgo/innowise/trainee/intervalstask/Intervals.java:128-134 | A position at most one circle off either end is brought back to its remainder modulo 19. |
| CircleWalk.NoThreeEmptySlots | src/main/java/shgo/innowise/trainee/intervalstask/Intervals.java:71-72 | On a note circle, one of the next three slots is lettered in either direction. |
| CircleWalk.StepsToLetterShrinks | src/main/java/shgo/innowise/trainee/intervalstask/Intervals.java:124-140 | Each step onto an empty slot brings the next lettered slot closer. Together with the degree, this makes the loop terminate. |
| CircleWalk.Walk | src/main/java/shgo/innowise/trainee/intervalstask/Intervals.java:120-140 | The loop stops on a lettered slot inside the circle, with the degree at its target. |
| CircleWalk.WalkTracksCrossings | src/main/java/shgo/innowise/trainee/intervalstask/Intervals.java:120-140 | Throughout the loop, the position is the start moved `distance` slots modulo 19. The degree minus one is the number of lettered slots landed on. |
| CircleWalk.CrossedPartition | src/main/java/shgo/innowise/trainee/intervalstask/Intervals.java:144-145 | Every slot walked is either empty or lettered, so the distance is the sum of the two counts. |
| CircleWalk.WalkFromLetter | src/main/java/shgo/innowise/trainee/intervalstask/Intervals.java:120-145 | From a lettered slot, the walk ends on the letter `degree − 1` letters away (mod 7) in its direction. `distance − (degree − 1)` equals the number of empty slots crossed, which is the semitone span between the two natural letters. |
| NoteCircle.LayoutCounts | src/main/java/shgo/innowise/trainee/intervalstask/Intervals.java:70-72 | On the circle's layout, the lettered and empty slots before each letter number the letter's index and its natural pitch. The whole circle holds 7 and 12. |
| NoteCircle.LayoutLetter | src/main/java/shgo/innowise/trainee/intervalstask/Intervals.java:70-72 | Each lettered slot holds a single letter A–G. The lettered slots before it give the letter's index, and the empty slots before it give its natural pitch. |
| NoteCircle.NotesIsCircle | src/main/java/shgo/innowise/trainee/intervalstask/Intervals.java:70-72 | The calculator's circle has 7 lettered and 12 empty slots, no three empty slots in a row, and letters laid out at the natural pitches. |
| Diatonic.TransposePitch | src/main/java/shgo/innowise/trainee/intervalstask/Intervals.java:146-155 | A transposed note lies exactly the semitones above (or below) the original once the octaves walked are counted. Its pitch class is the original's moved by the semitones. |
| Diatonic.TransposeUpThenDown | src/main/java/shgo/innowise/trainee/intervalstask/Intervals.java:146-155 | Transposing up and then down by the same degree and semitones gives back the note, for any pitch table. |
| Diatonic.TransposeDownThenUp | src/main/java/shgo/innowise/trainee/intervalstask/Intervals.java:146-155 | Transposing down and then up by the same degree and semitones gives back the note, for any pitch table. |
| Diatonic.TransposeOctave | src/main/java/shgo/innowise/trainee/intervalstask/Intervals.java:53 | Eight degrees and twelve semitones, up or down, give back the note. |
| Intervals.IntervalConstruction | src/main/java/shgo/innowise/trainee/intervalstask/Intervals.java:89-113 | Each failure holds exactly when its check fails and all earlier checks pass, in the order arity, order, start note, interval. A two-element array takes `asc` as its order. A success starts with a letter A–G. |
| Intervals.EndNote | src/main/java/shgo/innowise/trainee/intervalstask/Intervals.java:109-118 | Once the arguments are valid, the table lookups and the start note's first letter and accidental produce a note name starting with a letter A–G. |
| Intervals.WalkToEndNote | src/main/java/shgo/innowise/trainee/intervalstask/Intervals.java:115-157 | Starting from the slot `indexOf` finds for the letter, the walk and the accidental formula produce a note name starting with a letter A–G. WalkIsReference states which note. |
| Intervals.EndSemitonesAreAccidental | src/main/java/shgo/innowise/trainee/intervalstask/Intervals.java:144-155 | Specifies `EndSemitones`: when the empty slots walked equal the span of the two natural letters, the ascending and descending formulas both give the transposed note's accidental. |
| Intervals.WalkIsReference | src/main/java/shgo/innowise/trainee/intervalstask/Intervals.java:115-157 | The walk, the distance correction and the ascending/descending accidental formulas yield the name of the start note transposed by the interval. |
| Intervals.WalkIsTransposeIn | src/main/java/shgo/innowise/trainee/intervalstask/Intervals.java:115-157 | The same, for any pitch table that agrees with the circle's layout. |
| Intervals.ConstructionIsTranspose | src/main/java/shgo/innowise/trainee/intervalstask/Intervals.java:89-157 | On valid arguments the construction succeeds. The result is the start note transposed by the interval's degree and semitones, in the order's direction. |
| IntervalProperties.Construction | src/main/java/shgo/innowise/trainee/intervalstask/Intervals.java:89-157 | On valid arguments the construction succeeds with the transposed note. The interval's degree lies in 2..8 and its semitones in 1..12. The start accidental lies in −1..1. |
| IntervalProperties.ConstructionLetter | src/main/java/shgo/innowise/trainee/intervalstask/Intervals.java:120-140 | The end letter is `degree − 1` letters from the start letter, counted up for `asc` and down for `dsc`. |
| IntervalProperties.ConstructionPitch | src/main/java/shgo/innowise/trainee/intervalstask/Intervals.java:144-157 | The end note's pitch plus 12 per octave walked equals the start pitch moved by the interval's semitones. |
| IntervalProperties.ConstructionPitchClass | src/main/java/shgo/innowise/trainee/intervalstask/Intervals.java:144-157 | Modulo 12, the end note is the start note moved by the interval's semitones. |
| IntervalProperties.UpSpanRange | src/main/java/shgo/innowise/trainee/intervalstask/Intervals.java:56-67 | For every degree of the table, the semitones spanned by that many natural letters going up lie in the range of that degree's intervals. |
| IntervalProperties.IntervalNearLetterSpan | src/main/java/shgo/innowise/trainee/intervalstask/Intervals.java:42-67 | From any letter and in either direction, every interval's semitones are within one of the span of its natural letters. |
| IntervalProperties.ConstructionAccidentalBound | src/main/java/shgo/innowise/trainee/intervalstask/Intervals.java:144-157 | The end note carries at most two accidentals, so its name is 1 to 3 characters long. |
| IntervalProperties.OctaveIdentity | src/main/java/shgo/innowise/trainee/intervalstask/Intervals.java:53-67 | `P8` in either order returns the start note unchanged. |
| IntervalProperties.AscendingThenDescending | src/main/java/shgo/innowise/trainee/intervalstask/Intervals.java:146-155 | If the ascending result is itself a valid start note, constructing the same interval descending from it gives back the start note. |
| IntervalProperties.DescendingThenAscending | src/main/java/shgo/innowise/trainee/intervalstask/Intervals.java:146-155 | If the descending result is itself a valid start note, constructing the same interval ascending from it gives back the start note. |
| IntervalProperties.DefaultOrder | src/main/java/shgo/innowise/trainee/intervalstask/Intervals.java:98 | Specifies `OrderOf`: a two-element array gives the same result as the same array with `asc` appended. |
| IntervalsExamples.MajorSecondUpFromC | src/test/java/shgo/innowise/trainee/intervalstask/IntervalsTest.java:28 | `["M2","C","asc"]` gives `D`. |
| IntervalsExamples.PerfectFifthUpFromB | src/test/java/shgo/innowise/trainee/intervalstask/IntervalsTest.java:29 | `["P5","B","asc"]` gives `F#`. |
| IntervalsExamples.MinorSecondDownFromBFlat | src/test/java/shgo/innowise/trainee/intervalstask/IntervalsTest.java:30 | `["m2","Bb","dsc"]` gives `A`. |
| IntervalsExamples.MajorThirdDownFromCFlat | src/test/java/shgo/innowise/trainee/intervalstask/IntervalsTest.java:31 | `["M3","Cb","dsc"]` gives `Abb`. |
| IntervalsExamples.PerfectFourthDownFromGSharp | src/test/java/shgo/innowise/trainee/intervalstask/IntervalsTest.java:32 | `["P4","G#","dsc"]` gives `D#`. |
| IntervalsExamples.MinorThirdDownFromB | src/test/java/shgo/innowise/trainee/intervalstask/IntervalsTest.java:33 | `["m3","B","dsc"]` gives `G#`. |
| IntervalsExamples.MinorSecondUpFromFFlat | src/test/java/shgo/innowise/trainee/intervalstask/IntervalsTest.java:34 | `["m2","Fb","asc"]` gives `Gbb`. |
| IntervalsExamples.MajorSecondDownFromESharp | src/test/java/shgo/innowise/trainee/intervalstask/IntervalsTest.java:35 | `["M2","E#","dsc"]` gives `D#`. |
| IntervalsExamples.PerfectFourthDownFromE | src/test/java/shgo/innowise/trainee/intervalstask/IntervalsTest.java:36 | `["P4","E","dsc"]` gives `B`. |
| IntervalsExamples.MinorSecondUpFromDSharp | src/test/java/shgo/innowise/trainee/intervalstask/IntervalsTest.java:37 | `["m2","D#","asc"]` gives `E`. |
| IntervalsExamples.MajorSeventhUpFromG | src/test/java/shgo/innowise/trainee/intervalstask/IntervalsTest.java:38 | `["M7","G","asc"]` gives `F#`. |
| IntervalsExamples.TooFewArguments | src/test/java/shgo/innowise/trainee/intervalstask/IntervalsTest.java:44 | `["M2"]` is rejected for its number of elements. |
| IntervalsExamples.TooManyArguments | src/test/java/shgo/innowise/trainee/intervalstask/IntervalsTest.java:45 | `["M2","C","asc","abc"]` is rejected for its number of elements. |
| IntervalsExamples.UnknownInterval | src/test/java/shgo/innowise/trainee/intervalstask/IntervalsTest.java:46 | `["Interval","C","asc"]` is rejected as an invalid interval. |
| IntervalsExamples.MalformedStartNote | src/test/java/shgo/innowise/trainee/intervalstask/IntervalsTest.java:47 | `["M2","err","asc"]` is rejected as an invalid start note. |
| IntervalsExamples.UnknownOrder | src/test/java/shgo/innowise/trainee/intervalstask/IntervalsTest.java:48 | `["M2","C","abc"]` is rejected as an invalid order. |

## Left out

- `intervalIdentification` (Intervals.java:160-162) returns `null` and has no logic to model.
- The regular-expression engine: the start-note pattern is written out as the predicate `MatchesStartNotePattern`.
- `null` arguments: a `null` array or element makes the code throw `NullPointerException` (from `Map.get` or `Pattern.matcher`) rather than `IllegalArgumentException`. Dafny sequences and strings cannot be null, so that error path has no counterpart in the model.
- Exception messages: each `IllegalArgumentException` is a `Failure` whose `ConstructionError` names the check that failed. The message text is not kept.
- Java `int` width: every value the construction computes lies within a few dozen of zero, so 32-bit wrap-around and `Math.abs(Integer.MIN_VALUE)` cannot arise.
- NoteCodec.CountMatches: takes a single character rather than an arbitrary substring, because `getNoteSemitone` only ever counts `#` and `b`.
- CircleWalk.Walk: requires a start slot holding a letter and a target degree no smaller than the current one. The code starts at the slot `indexOf` found for a validated letter with a table degree of at least 2, so both always hold and a target below the starting degree cannot arise.
- IntervalProperties.AscendingThenDescending: holds only when the ascending result has at most one accidental, since a result such as `Abb` is not accepted as a start note.
- IntervalProperties.DescendingThenAscending: holds only when the descending result has at most one accidental, for the same reason.
