/** The constant tables of the interval calculator: semitones and degree per
    interval name, the step per order name, and the 19-slot note circle. */
module IntervalTables {
  import opened Diatonic

  const Ascending: string := "asc"
  const Descending: string := "dsc"

  /** Semitones spanned by each named interval. */
  const IntervalSemitones: map<string, int> := map[
    "m2" := 1, "M2" := 2, "m3" := 3, "M3" := 4, "P4" := 5, "P5" := 7,
    "m6" := 8, "M6" := 9, "m7" := 10, "M7" := 11, "P8" := 12]

  /** Degree of each named interval: letters spanned, both ends included. */
  const IntervalDegrees: map<string, int> := map[
    "m2" := 2, "M2" := 2, "m3" := 3, "M3" := 3, "P4" := 4, "P5" := 5,
    "m6" := 6, "M6" := 6, "m7" := 7, "M7" := 7, "P8" := 8]

  /** The note circle C--D--E-F--G--A--B-: a lettered slot per natural
      letter and an empty slot ("") per semitone that has no natural letter.
      Walked cyclically, so the last slot is followed by C again. */
  const Notes: seq<string> := ["C", "", "", "D", "", "", "E", "", "F", "", "",
                               "G", "", "", "A", "", "", "B", ""]
  const NoteCount: int := 19

  /** Step along the circle for each order name. */
  const OrderStep: map<string, int> := map[Ascending := 1, Descending := -1]

  predicate IsIntervalName(name: string) {
    name in IntervalDegrees && name in IntervalSemitones
  }

  /** The two interval tables share their eleven keys, degrees lie in 2..8 and
      semitones in 1..12; the order table has exactly asc and dsc. */
  lemma TableShapes(name: string)
    ensures name in IntervalDegrees <==> name in IntervalSemitones
    ensures IsIntervalName(name) ==> 2 <= IntervalDegrees[name] <= 8 && 1 <= IntervalSemitones[name] <= 12
    ensures name in OrderStep <==> name == Ascending || name == Descending
    ensures name in OrderStep ==> (OrderStep[name] == 1 <==> name == Ascending)
    ensures name in OrderStep ==> (OrderStep[name] == -1 <==> name == Descending)
  {
  }

  /** The slot contents of the calculator's circle, one by one. */
  predicate PianoLayout(circle: seq<string>) {
    && |circle| == NoteCount
    && circle[0] == "C"
    && circle[1] == ""
    && circle[2] == ""
    && circle[3] == "D"
    && circle[4] == ""
    && circle[5] == ""
    && circle[6] == "E"
    && circle[7] == ""
    && circle[8] == "F"
    && circle[9] == ""
    && circle[10] == ""
    && circle[11] == "G"
    && circle[12] == ""
    && circle[13] == ""
    && circle[14] == "A"
    && circle[15] == ""
    && circle[16] == ""
    && circle[17] == "B"
    && circle[18] == ""
  }

  lemma NotesLayout()
    ensures PianoLayout(Notes)
  {
  }

  /** First index of `x` in `s`, or -1 when it does not occur. */
  function IndexOf<T(==)>(s: seq<T>, x: T): (i: int)
    ensures -1 <= i
    ensures i == -1 <==> x !in s
    ensures 0 <= i ==> i < |s| && s[i] == x && x !in s[..i]
  {
    if s == [] then -1
    else if s[0] == x then 0
    else
      var j := IndexOf(s[1..], x);
      if j == -1 then -1
      else
        assert s[..j + 1] == [s[0]] + s[1..][..j];
        j + 1
  }

  /** Each natural letter names exactly one slot, which IndexOf finds. */
  lemma SlotOfLetter(c: char)
    requires IsNoteLetter(c)
    ensures var p := IndexOf(Notes, [c]);
            0 <= p < NoteCount && Notes[p] == [c]
  {
    NotesLayout();
    var slot := if c == 'A' then 14 else if c == 'B' then 17 else if c == 'C' then 0
                else if c == 'D' then 3 else if c == 'E' then 6 else if c == 'F' then 8 else 11;
    assert Notes[slot] == [c];
  }
}
