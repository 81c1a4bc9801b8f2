/** The calculator's own circle C--D--E-F--G--A--B- satisfies the shape the
    walk lemmas assume, and its lettered slots are the natural letters in
    order at their natural pitches. */
module NoteCircle {
  import opened Diatonic
  import opened IntervalTables
  import opened CircleWalk

  /** The slot counts of the layout, evaluated slot by slot. */
  lemma LayoutCounts(circle: seq<string>)
    requires PianoLayout(circle)
    ensures CountBefore(circle, 0, false) == 0 && CountBefore(circle, 0, true) == 0
    ensures CountBefore(circle, 3, false) == 1 && CountBefore(circle, 3, true) == 2
    ensures CountBefore(circle, 6, false) == 2 && CountBefore(circle, 6, true) == 4
    ensures CountBefore(circle, 8, false) == 3 && CountBefore(circle, 8, true) == 5
    ensures CountBefore(circle, 11, false) == 4 && CountBefore(circle, 11, true) == 7
    ensures CountBefore(circle, 14, false) == 5 && CountBefore(circle, 14, true) == 9
    ensures CountBefore(circle, 17, false) == 6 && CountBefore(circle, 17, true) == 11
    ensures CountBefore(circle, 19, false) == 7 && CountBefore(circle, 19, true) == 12
  {
    assert CountBefore(circle, 1, true) == 0 && CountBefore(circle, 1, false) == 1;
    assert CountBefore(circle, 2, true) == 1 && CountBefore(circle, 2, false) == 1;
    assert CountBefore(circle, 3, true) == 2 && CountBefore(circle, 3, false) == 1;
    assert CountBefore(circle, 4, true) == 2 && CountBefore(circle, 4, false) == 2;
    assert CountBefore(circle, 5, true) == 3 && CountBefore(circle, 5, false) == 2;
    assert CountBefore(circle, 6, true) == 4 && CountBefore(circle, 6, false) == 2;
    assert CountBefore(circle, 7, true) == 4 && CountBefore(circle, 7, false) == 3;
    assert CountBefore(circle, 8, true) == 5 && CountBefore(circle, 8, false) == 3;
    assert CountBefore(circle, 9, true) == 5 && CountBefore(circle, 9, false) == 4;
    assert CountBefore(circle, 10, true) == 6 && CountBefore(circle, 10, false) == 4;
    assert CountBefore(circle, 11, true) == 7 && CountBefore(circle, 11, false) == 4;
    assert CountBefore(circle, 12, true) == 7 && CountBefore(circle, 12, false) == 5;
    assert CountBefore(circle, 13, true) == 8 && CountBefore(circle, 13, false) == 5;
    assert CountBefore(circle, 14, true) == 9 && CountBefore(circle, 14, false) == 5;
    assert CountBefore(circle, 15, true) == 9 && CountBefore(circle, 15, false) == 6;
    assert CountBefore(circle, 16, true) == 10 && CountBefore(circle, 16, false) == 6;
    assert CountBefore(circle, 17, true) == 11 && CountBefore(circle, 17, false) == 6;
    assert CountBefore(circle, 18, true) == 11 && CountBefore(circle, 18, false) == 7;
  }

  /** The layout has the shape of a note circle. */
  lemma LayoutIsCircle(circle: seq<string>)
    requires PianoLayout(circle)
    ensures IsCircle(circle)
  {
    LayoutCounts(circle);
    forall x | 0 <= x < NoteCount
      ensures LetterWithinThree(circle, x)
    {
      if x == 18 {
        assert Wrap(x + 1) == 0;
      } else if x == 17 {
        assert IsLettered(circle, x);
      } else {
        assert Wrap(x + 1) == x + 1 && Wrap(x + 2) == x + 2;
      }
    }
  }

  /** The lettered slots of the layout are the natural letters in order, and
      the empty slots before each one number its natural pitch. */
  lemma LayoutLetter(circle: seq<string>, x: int)
    requires PianoLayout(circle) && 0 <= x < NoteCount && IsLettered(circle, x)
    ensures |circle[x]| == 1 && IsNoteLetter(circle[x][0])
    ensures CountBefore(circle, x, false) == LetterIndex(circle[x][0])
    ensures CountBefore(circle, x, true) == NaturalPitch(circle[x][0])
  {
    LayoutCounts(circle);
    assert x in {0, 3, 6, 8, 11, 14, 17};
  }

  /** The natural pitches are the pitch table of the layout. */
  lemma LayoutPitches(circle: seq<string>)
    requires PianoLayout(circle)
    ensures PitchesMatch(circle, NaturalPitches)
  {
    forall x | 0 <= x < NoteCount && IsLettered(circle, x)
      ensures CountBefore(circle, x, false) < LetterCount
              && NaturalPitches[CountBefore(circle, x, false)] == CountBefore(circle, x, true)
    {
      LayoutLetter(circle, x);
    }
  }

  /** The calculator's circle satisfies everything the walk lemmas assume. */
  lemma NotesIsCircle()
    ensures IsCircle(Notes) && PitchesMatch(Notes, NaturalPitches)
  {
    NotesLayout();
    LayoutIsCircle(Notes);
    LayoutPitches(Notes);
  }
}
