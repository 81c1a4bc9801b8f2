/** Natural-letter arithmetic of the diatonic scale (12-tone equal temperament).
    These definitions are the musical reference the interval calculator is
    proved against: they never mention the calculator's slot circle. */
module Diatonic {

  /** The seven natural letters in ascending order, starting from C. */
  const LetterOrder: string := "CDEFGAB"
  const LetterCount: int := 7

  /** Semitones of each natural letter above C, indexed like LetterOrder
      (the white keys of a piano octave). */
  const NaturalPitches: seq<int> := [0, 2, 4, 5, 7, 9, 11]
  const OctaveSemitones: int := 12

  predicate IsNoteLetter(c: char) {
    'A' <= c <= 'G'
  }

  /** Position of a natural letter in LetterOrder. */
  function LetterIndex(c: char): (i: nat)
    requires IsNoteLetter(c)
    ensures i < LetterCount && LetterOrder[i] == c
  {
    if c == 'C' then 0
    else if c == 'D' then 1
    else if c == 'E' then 2
    else if c == 'F' then 3
    else if c == 'G' then 4
    else if c == 'A' then 5
    else 6
  }

  /** LetterIndex and LetterOrder are inverse to each other. */
  lemma LetterIndexOfOrder(j: int)
    requires 0 <= j < LetterCount
    ensures IsNoteLetter(LetterOrder[j]) && LetterIndex(LetterOrder[j]) == j
  {
  }

  function NaturalPitch(c: char): int
    requires IsNoteLetter(c)
  {
    NaturalPitches[LetterIndex(c)]
  }

  /** `k` units from `start` in the direction of `step` (up when positive). */
  function Moved(start: int, step: int, k: int): int {
    if step < 0 then start - k else start + k
  }

  /** The semitones spanned, walking in the direction of `step` (up when
      positive, down otherwise), from the letter at `index` to the letter
      `degree - 1` letters away, when the letters of one octave sit at
      `pitches` above its first letter; every completed octave adds 12. */
  function SpanIn(pitches: seq<int>, index: int, degree: int, step: int): int
    requires |pitches| == LetterCount && 0 <= index < LetterCount
  {
    var t := Moved(index, step, degree - 1);
    if step < 0 then pitches[index] - pitches[t % LetterCount] - OctaveSemitones * (t / LetterCount)
    else OctaveSemitones * (t / LetterCount) + pitches[t % LetterCount] - pitches[index]
  }

  /** SpanIn over the natural letters. */
  function LetterSpan(index: int, degree: int, step: int): int
    requires 0 <= index < LetterCount
  {
    SpanIn(NaturalPitches, index, degree, step)
  }

  /** Walking `degree - 1` letters up and then the same number down returns
      to the starting letter, and both walks span the same semitones. */
  lemma SpanUpThenDown(pitches: seq<int>, index: int, degree: int)
    requires |pitches| == LetterCount && 0 <= index < LetterCount && 1 <= degree
    ensures var up := (index + (degree - 1)) % LetterCount;
            (up - (degree - 1)) % LetterCount == index
            && SpanIn(pitches, up, degree, -1) == SpanIn(pitches, index, degree, 1)
  {
    var k := degree - 1;
    var t := index + k;
    var laps, up := t / LetterCount, t % LetterCount;
    assert t == LetterCount * laps + up;
    DivModOf(up - k, -laps, index);
  }

  /** Walking `degree - 1` letters down and then the same number up returns
      to the starting letter, and both walks span the same semitones. */
  lemma SpanDownThenUp(pitches: seq<int>, index: int, degree: int)
    requires |pitches| == LetterCount && 0 <= index < LetterCount && 1 <= degree
    ensures var down := (index - (degree - 1)) % LetterCount;
            (down + (degree - 1)) % LetterCount == index
            && SpanIn(pitches, down, degree, 1) == SpanIn(pitches, index, degree, -1)
  {
    var k := degree - 1;
    var t := index - k;
    var laps, down := t / LetterCount, t % LetterCount;
    assert t == LetterCount * laps + down;
    DivModOf(down + k, -laps, index);
  }

  /** When `degree - 1` letters taken from letter `i` in the direction of
      `step` land on letter `j` after `laps` octaves, SpanIn counts the
      semitones from `i` to `j` plus an octave per lap. */
  lemma SpanFromLaps(pitches: seq<int>, i: int, j: int, laps: int, degree: int, step: int)
    requires |pitches| == LetterCount && 0 <= i < LetterCount && 0 <= j < LetterCount && (step == 1 || step == -1)
    requires step == 1 ==> degree - 1 == LetterCount * laps + j - i
    requires step == -1 ==> degree - 1 == LetterCount * laps + i - j
    ensures Moved(i, step, degree - 1) % LetterCount == j
    ensures step == 1 ==> SpanIn(pitches, i, degree, step) == OctaveSemitones * laps + pitches[j] - pitches[i]
    ensures step == -1 ==> SpanIn(pitches, i, degree, step) == OctaveSemitones * laps + pitches[i] - pitches[j]
  {
    if step == 1 {
      DivModOf(i + (degree - 1), laps, j);
    } else {
      DivModOf(i - (degree - 1), -laps, j);
    }
  }

  /** A note spelled as a natural letter, by its index in LetterOrder, and
      a signed number of accidentals (sharps when positive, flats when
      negative). */
  datatype SpelledNote = SpelledNote(letter: int, accidental: int)

  predicate IsSpelled(n: SpelledNote) {
    0 <= n.letter < LetterCount
  }

  /** Semitones of a spelled note above the C of its letter's octave. */
  function Pitch(n: SpelledNote): int
    requires IsSpelled(n)
  {
    NaturalPitches[n.letter] + n.accidental
  }

  /** The note an interval of `degree` letters and `semitones` semitones
      away, up when `step` is positive and down otherwise, when the letters
      sit at `pitches`: the letter `degree - 1` letters on, with the
      accidental that makes up the difference between `semitones` and the
      span of the two letters. */
  function TransposeIn(pitches: seq<int>, n: SpelledNote, step: int, degree: int, semitones: int): (m: SpelledNote)
    requires |pitches| == LetterCount && IsSpelled(n)
    ensures IsSpelled(m)
  {
    SpelledNote(Moved(n.letter, step, degree - 1) % LetterCount,
                n.accidental + Moved(0, step, semitones - SpanIn(pitches, n.letter, degree, step)))
  }

  /** TransposeIn over the natural letters. */
  function Transpose(n: SpelledNote, step: int, degree: int, semitones: int): (m: SpelledNote)
    requires IsSpelled(n)
    ensures IsSpelled(m)
  {
    TransposeIn(NaturalPitches, n, step, degree, semitones)
  }

  /** A transposed note lies `semitones` above (or below) the original,
      once the octaves its letter walked past are counted. */
  lemma TransposePitch(n: SpelledNote, step: int, degree: int, semitones: int)
    requires IsSpelled(n) && (step == 1 || step == -1)
    ensures var t := Moved(n.letter, step, degree - 1);
            Pitch(Transpose(n, step, degree, semitones)) + OctaveSemitones * (t / LetterCount)
            == Moved(Pitch(n), step, semitones)
    ensures PitchClass(Pitch(Transpose(n, step, degree, semitones))) == PitchClass(Moved(Pitch(n), step, semitones))
  {
    var t := Moved(n.letter, step, degree - 1);
    SamePitchClass(Pitch(Transpose(n, step, degree, semitones)), Moved(Pitch(n), step, semitones), t / LetterCount);
  }

  /** The pitch within the octave, 0 (C) to 11 (B). */
  function PitchClass(pitch: int): (c: int)
    ensures 0 <= c < OctaveSemitones
  {
    pitch % OctaveSemitones
  }

  /** Pitches a whole number of octaves apart have the same pitch class. */
  lemma SamePitchClass(a: int, b: int, octaves: int)
    requires a + OctaveSemitones * octaves == b
    ensures PitchClass(a) == PitchClass(b)
  {
    DivModOf12(b, a / OctaveSemitones + octaves, a % OctaveSemitones);
  }

  lemma DivModOf12(t: int, q: int, r: int)
    requires t == OctaveSemitones * q + r && 0 <= r < OctaveSemitones
    ensures t / OctaveSemitones == q && t % OctaveSemitones == r
  {
  }

  /** Transposing up and then down by the same interval is the identity,
      whatever the pitch table. */
  lemma TransposeUpThenDown(pitches: seq<int>, n: SpelledNote, degree: int, semitones: int)
    requires |pitches| == LetterCount && IsSpelled(n) && 1 <= degree
    ensures TransposeIn(pitches, TransposeIn(pitches, n, 1, degree, semitones), -1, degree, semitones) == n
  {
    SpanUpThenDown(pitches, n.letter, degree);
  }

  /** Transposing down and then up by the same interval is the identity,
      whatever the pitch table. */
  lemma TransposeDownThenUp(pitches: seq<int>, n: SpelledNote, degree: int, semitones: int)
    requires |pitches| == LetterCount && IsSpelled(n) && 1 <= degree
    ensures TransposeIn(pitches, TransposeIn(pitches, n, -1, degree, semitones), 1, degree, semitones) == n
  {
    SpanDownThenUp(pitches, n.letter, degree);
  }

  /** An octave (eight letters, twelve semitones) up or down is the identity. */
  lemma TransposeOctave(n: SpelledNote, step: int)
    requires IsSpelled(n) && (step == 1 || step == -1)
    ensures Transpose(n, step, 8, OctaveSemitones) == n
  {
    SpanFromLaps(NaturalPitches, n.letter, n.letter, 1, 8, step);
  }

  /** Euclidean division by LetterCount is determined by quotient and remainder. */
  lemma DivModOf(t: int, q: int, r: int)
    requires t == LetterCount * q + r && 0 <= r < LetterCount
    ensures t / LetterCount == q && t % LetterCount == r
  {
  }
}
