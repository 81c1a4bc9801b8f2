/** Reading and writing note names: the start-note pattern, the accidental
    count of a note, and a letter followed by its accidentals. */
module NoteCodec {
  import opened Diatonic

  /** A start note is one natural letter optionally followed by one `#` or
      one `b`, the pattern `^[A-G](#?|b?)$`. */
  predicate MatchesStartNotePattern(note: string) {
    && (|note| == 1 || |note| == 2)
    && IsNoteLetter(note[0])
    && (|note| == 2 ==> note[1] == '#' || note[1] == 'b')
  }

  /** Occurrences of the one-character substring `c` in `s`. */
  function CountMatches(s: string, c: char): (n: nat)
    ensures n == multiset(s)[c]
    ensures n <= |s|
  {
    if s == [] then 0
    else
      assert s == [s[0]] + s[1..];
      CountMatches(s[1..], c) + (if s[0] == c then 1 else 0)
  }

  /** Signed accidental of a note: the number of `#` when there is one, and
      otherwise minus the number of lower-case `b` (the letter B is not a flat). */
  function NoteSemitone(note: string): (s: int)
    ensures '#' in note ==> s == multiset(note)['#'] && s > 0
    ensures '#' !in note ==> s == -(multiset(note)['b'] as int) && s <= 0
  {
    var sharps := CountMatches(note, '#');
    if sharps == 0 then -(CountMatches(note, 'b') as int) else sharps
  }

  /** The accidental of a start note: a bare letter has none. */
  function StartSemitone(note: string): int {
    if |note| > 1 then NoteSemitone(note) else 0
  }

  /** For a note of the start-note pattern, the accidental read from it is
      its accidental as a note, and it is at most one step. */
  lemma StartSemitoneOfPattern(note: string)
    requires MatchesStartNotePattern(note)
    ensures StartSemitone(note) == NoteSemitone(note)
    ensures -1 <= StartSemitone(note) <= 1
  {
    if |note| == 2 {
      assert note == [note[0]] + [note[1]];
      assert multiset(note) == multiset{note[0]} + multiset{note[1]};
    } else {
      assert note == [note[0]];
    }
  }

  function Abs(x: int): nat {
    if x < 0 then -x else x
  }

  /** `n` copies of the character `c`. */
  function Repeat(c: char, n: nat): (r: string)
    ensures |r| == n
    ensures forall i :: 0 <= i < n ==> r[i] == c
  {
    if n == 0 then [] else [c] + Repeat(c, n - 1)
  }

  /** The character that writes one step of the given signed accidental. */
  function AccidentalChar(semitones: int): char {
    if semitones < 0 then 'b' else '#'
  }

  /** A note name followed by |semitones| flats when `semitones` is negative
      and by that many sharps otherwise. */
  function NoteWithSemitones(note: string, semitones: int): (r: string)
    ensures |r| == |note| + Abs(semitones)
    ensures r[..|note|] == note
    ensures semitones == 0 ==> r == note
    ensures semitones < 0 ==> forall i :: |note| <= i < |r| ==> r[i] == 'b'
    ensures semitones > 0 ==> forall i :: |note| <= i < |r| ==> r[i] == '#'
  {
    note + Repeat(AccidentalChar(semitones), Abs(semitones))
  }

  lemma {:induction false} RepeatCounts(c: char, n: nat, d: char)
    ensures multiset(Repeat(c, n))[d] == if c == d then n else 0
  {
    if n > 0 {
      RepeatCounts(c, n - 1, d);
      assert Repeat(c, n) == [c] + Repeat(c, n - 1);
    }
  }

  /** Reading back the accidental of a rendered note gives the offset it was
      rendered with, for every natural letter and every signed offset. */
  lemma AccidentalRoundTrip(letter: char, semitones: int)
    requires IsNoteLetter(letter)
    ensures NoteSemitone(NoteWithSemitones([letter], semitones)) == semitones
  {
    var a := AccidentalChar(semitones);
    var n := Abs(semitones);
    var r := NoteWithSemitones([letter], semitones);
    assert r == [letter] + Repeat(a, n);
    assert multiset(r) == multiset{letter} + multiset(Repeat(a, n));
    RepeatCounts(a, n, '#');
    RepeatCounts(a, n, 'b');
  }

  /** A start note is its letter rendered with its accidental. */
  lemma StartNoteRoundTrip(note: string)
    requires MatchesStartNotePattern(note)
    ensures NoteWithSemitones(note[..1], StartSemitone(note)) == note
  {
    if |note| == 2 {
      assert note == [note[0]] + [note[1]];
      assert multiset(note) == multiset{note[0]} + multiset{note[1]};
    }
  }

  /** A rendered note passes the start-note pattern exactly when it carries
      at most one accidental. */
  lemma RenderedStartNote(letter: char, semitones: int)
    requires IsNoteLetter(letter)
    ensures MatchesStartNotePattern(NoteWithSemitones([letter], semitones)) <==> -1 <= semitones <= 1
  {
  }

  /** The name of a spelled note: its letter followed by its accidentals. */
  function Render(n: SpelledNote): (r: string)
    requires IsSpelled(n)
    ensures |r| >= 1 && IsNoteLetter(r[0])
  {
    LetterIndexOfOrder(n.letter);
    NoteWithSemitones([LetterOrder[n.letter]], n.accidental)
  }

  /** Render is the one-letter name of the letter with the accidental
      appended. */
  lemma RenderOf(n: SpelledNote, name: string, accidental: int)
    requires IsSpelled(n) && name == [LetterOrder[n.letter]] && accidental == n.accidental
    ensures Render(n) == NoteWithSemitones(name, accidental)
  {
  }

  /** The spelled note a name denotes: its first letter and its accidental. */
  function Read(note: string): SpelledNote
    requires |note| >= 1 && IsNoteLetter(note[0])
  {
    SpelledNote(LetterIndex(note[0]), NoteSemitone(note))
  }

  /** Reading a rendered note gives back the spelled note. */
  lemma ReadRender(n: SpelledNote)
    requires IsSpelled(n)
    ensures Read(Render(n)) == n
  {
    LetterIndexOfOrder(n.letter);
    var r := Render(n);
    assert r[0] == r[..1][0];
    AccidentalRoundTrip(LetterOrder[n.letter], n.accidental);
  }

  /** Rendering what a start note reads as gives back the start note. */
  lemma RenderRead(note: string)
    requires MatchesStartNotePattern(note)
    ensures IsSpelled(Read(note)) && Render(Read(note)) == note
  {
    StartSemitoneOfPattern(note);
    StartNoteRoundTrip(note);
    assert note[..1] == [note[0]];
  }
}
